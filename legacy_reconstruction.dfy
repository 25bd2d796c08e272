/** coordinate_processing.py, the oldest version of the reconstruction.
    Its main reads the fixed-width scan file, takes x and y from the
    square photographs and the height from the mean image y of all of a
    light's shots, and then replaces each light that lacks x or y by the
    average of its two immediate neighbours when both have x and y. */
module LegacyReconstruction {
  import opened Wrappers
  import opened Text
  import opened Coords
  import opened Reconstruction
  import opened Resolvers
  import opened Stages
  import opened FixedWidth

  /** avg(a, b) = int((a + b) / 2): true division, then truncation towards
      zero. */
  function LegacyAvg(a: int, b: int): (r: int)
    ensures a <= b ==> a <= r <= b
    ensures b <= a ==> b <= r <= a
    ensures a >= 1 && b >= 1 ==> r >= 1
  {
    Trunc((a + b) as real / 2.0)
  }

  function SumY(shots: seq<Snap>): int
  {
    if shots == [] then 0 else SumY(shots[..|shots| - 1]) + shots[|shots| - 1].y
  }

  /** int(mean(s.y for s in shots)) */
  function MeanHeight(shots: seq<Snap>): int
    requires |shots| > 0
  {
    Trunc(SumY(shots) as real / |shots| as real)
  }

  lemma {:induction false} SumYBounds(shots: seq<Snap>, lo: int, hi: int)
    requires forall s | s in shots :: lo <= s.y <= hi
    ensures |shots| * lo <= SumY(shots) <= |shots| * hi
  {
    if shots != [] {
      var front := shots[..|shots| - 1];
      assert forall s | s in front :: s in shots;
      SumYBounds(front, lo, hi);
      var last := shots[|shots| - 1];
      assert last in shots;
      assert SumY(shots) == SumY(front) + last.y;
      var n := |front|;
      assert |shots| == n + 1;
      assert (n + 1) * lo == n * lo + lo;
      assert (n + 1) * hi == n * hi + hi;
    }
  }

  /** A quotient of a sum lying between n * lo and n * hi lies between lo
      and hi. */
  lemma MeanBounds(sum: int, n: int, lo: int, hi: int)
    requires n > 0 && n * lo <= sum <= n * hi
    ensures lo as real <= sum as real / n as real <= hi as real
  {
    var m := sum as real / n as real;
    assert m * n as real == sum as real;
    assert (m - lo as real) * n as real == sum as real - (n * lo) as real;
    assert (hi as real - m) * n as real == (n * hi) as real - sum as real;
  }

  /** The height lies within any bounds on the shots' image y. */
  lemma MeanHeightWithin(shots: seq<Snap>, lo: int, hi: int)
    requires |shots| > 0 && forall s | s in shots :: lo <= s.y <= hi
    ensures lo <= MeanHeight(shots) <= hi
  {
    SumYBounds(shots, lo, hi);
    MeanBounds(SumY(shots), |shots|, lo, hi);
  }

  /** The reading of one light: x and y as in the later pipeline, the
      height from the mean image y of all its shots. */
  function LegacyCoord(id: int, shots: seq<Snap>): (c: Coord3d)
    requires |shots| > 0
    ensures c.ledId == id && c.z == MeanHeight(shots)
    ensures c.x == AxisValue(Usable(shots), 0, 180) && c.y == AxisValue(Usable(shots), 270, 90)
  {
    var filtered := Usable(shots);
    Coord3d(id, AxisValue(filtered, 0, 180), AxisValue(filtered, 270, 90), MeanHeight(shots))
  }

  function LegacyReadings(shots: map<int, seq<Snap>>): (readings: map<int, Coord3d>)
    requires NonEmptyGroups(shots)
    ensures readings.Keys == shots.Keys
    ensures forall k | k in shots :: readings[k] == LegacyCoord(k, shots[k])
  {
    map k | k in shots :: LegacyCoord(k, shots[k])
  }

  /** No usable shot faces along the axis. */
  predicate NoneFacing(shots: seq<Snap>, direct: int, reflected: int)
  {
    Facing(Usable(shots), direct, reflected) == []
  }

  /** The lights without a usable 0/180 shot (missingx) and without a
      usable 90/270 shot (missingy). */
  function NoX(shots: map<int, seq<Snap>>): (s: set<int>)
    ensures forall k | k in shots :: k in s <==> NoneFacing(shots[k], 0, 180)
  {
    set k | k in shots && NoneFacing(shots[k], 0, 180)
  }

  function NoY(shots: map<int, seq<Snap>>): (s: set<int>)
    ensures forall k | k in shots :: k in s <==> NoneFacing(shots[k], 270, 90)
  {
    set k | k in shots && NoneFacing(shots[k], 270, 90)
  }

  /** The loop of main that computes the coordinates: every light gets its
      reading, and missingx and missingy list, in order, the lights that
      had no shot for that axis. */
  method LegacySquarePass(shots: map<int, seq<Snap>>, ids: seq<int>, readings: map<int, Coord3d>,
                          noX: set<int>, noY: set<int>)
      returns (coords: map<int, Coord3d>, missingX: seq<int>, missingY: seq<int>)
    requires Enumerates(ids, shots.Keys) && readings.Keys == shots.Keys
    ensures coords == readings
    ensures missingX == Selected(ids, |ids|, noX) && missingY == Selected(ids, |ids|, noY)
  {
    ListedAt(ids, shots.Keys);
    coords := map[];
    missingX, missingY := [], [];
    for i := 0 to |ids|
      invariant coords == Written(map[], ids, i, readings)
      invariant missingX == Selected(ids, i, noX) && missingY == Selected(ids, i, noY)
    {
      var k := ids[i];
      if k in noY {
        missingY := missingY + [k];
      }
      if k in noX {
        missingX := missingX + [k];
      }
      coords := coords[k := readings[k]];
    }
    WrittenSpec(map[], ids, |ids|, readings);
    assert ids[..|ids|] == ids;
    forall k | k in readings
      ensures k in coords && coords[k] == readings[k]
    {
      assert k in ids;
      var j :| 0 <= j < |ids| && ids[j] == k;
    }
    assert forall k :: k in coords <==> k in readings;
  }

  /** reliable_neighbors: both immediate neighbours are present with
      positive x and y. */
  predicate ReliableNeighbors(coords: map<int, Coord3d>, k: int)
  {
    && k - 1 in coords && k + 1 in coords
    && coords[k - 1].x > 0 && coords[k - 1].y > 0
    && coords[k + 1].x > 0 && coords[k + 1].y > 0
  }

  /** The replacement for a light between two reliable neighbours. */
  function Midpoint(k: int, p: Coord3d, n: Coord3d): (c: Coord3d)
    ensures c.ledId == k
    ensures p.x >= 1 && n.x >= 1 ==> c.x >= 1
    ensures p.y >= 1 && n.y >= 1 ==> c.y >= 1
  {
    Coord3d(k, LegacyAvg(p.x, n.x), LegacyAvg(p.y, n.y), LegacyAvg(p.z, n.z))
  }

  /** The coordinate map and the `fixed` list. */
  datatype FixState = FixState(coords: map<int, Coord3d>, fixed: seq<Coord3d>)

  /** Whether the fix loop replaces light k in the map as it stands. */
  predicate Fixable(coords: map<int, Coord3d>, k: int)
  {
    k in coords && Unresolved(coords[k]) && ReliableNeighbors(coords, k)
  }

  /** One turn of the fix loop. */
  function FixStep(s: FixState, k: int): FixState
  {
    if Fixable(s.coords, k) then
      var c := Midpoint(k, s.coords[k - 1], s.coords[k + 1]);
      FixState(s.coords[k := c], s.fixed + [c])
    else s
  }

  /** The state after the first n keys of the map. */
  function Fixed(start: map<int, Coord3d>, keys: seq<int>, n: nat): FixState
    requires n <= |keys|
  {
    if n == 0 then FixState(start, []) else FixStep(Fixed(start, keys, n - 1), keys[n - 1])
  }

  /** The fix loop of main, over the keys of the map in order. Replacing a
      value while iterating is allowed in Python, and a neighbour fixed
      earlier in the loop is read with its new value. */
  method FixNeighbors(start: map<int, Coord3d>, keys: seq<int>) returns (coords: map<int, Coord3d>, fixed: seq<Coord3d>)
    requires Enumerates(keys, start.Keys)
    ensures FixState(coords, fixed) == Fixed(start, keys, |keys|)
    ensures coords.Keys == start.Keys
    ensures forall k | k in start && !Unresolved(start[k]) :: coords[k] == start[k]
    ensures forall c | c in fixed :: c.ledId in coords && coords[c.ledId] == c && c.x > 0 && c.y > 0
  {
    coords, fixed := start, [];
    for i := 0 to |keys|
      invariant FixState(coords, fixed) == Fixed(start, keys, i)
    {
      var k := keys[i];
      if k !in coords {
        continue;
      }
      var v := coords[k];
      if v.x == 0 || v.y == 0 {
        if !ReliableNeighbors(coords, k) {
          continue;
        }
        var pn := coords[k - 1];
        var nn := coords[k + 1];
        var fixedPoint := Coord3d(k, LegacyAvg(pn.x, nn.x), LegacyAvg(pn.y, nn.y), LegacyAvg(pn.z, nn.z));
        fixed := fixed + [fixedPoint];
        coords := coords[k := fixedPoint];
      }
    }
    FixedUntouched(start, keys, |keys|);
    FixedResolved(start, keys, |keys|);
    forall k | k in start && !Unresolved(start[k])
      ensures coords[k] == start[k]
    {
      assert k in keys;
      var j :| 0 <= j < |keys| && keys[j] == k;
      FixedValues(start, keys, |keys|, j);
      FixedStillResolved(start, keys, j);
    }
  }

  /** The loop keeps the key set, and a key not yet reached keeps its
      value. */
  lemma {:induction false} FixedUntouched(start: map<int, Coord3d>, keys: seq<int>, n: nat)
    requires n <= |keys|
    ensures Fixed(start, keys, n).coords.Keys == start.Keys
    ensures forall k | k in start && k !in keys[..n] :: Fixed(start, keys, n).coords[k] == start[k]
  {
    if n > 0 {
      FixedUntouched(start, keys, n - 1);
      assert keys[..n] == keys[..n - 1] + [keys[n - 1]];
    }
  }

  /** With each key listed once, the j-th key ends up with the midpoint of
      its neighbours as they stood at its turn when it was fixable then,
      and with its first value otherwise. */
  lemma {:induction false} FixedValues(start: map<int, Coord3d>, keys: seq<int>, n: nat, j: nat)
    requires j < n <= |keys| && Distinct(keys) && keys[j] in start
    ensures Fixed(start, keys, n).coords.Keys == start.Keys
    ensures var before := Fixed(start, keys, j).coords;
      var k := keys[j];
      var s := Fixed(start, keys, n);
      && (Fixable(before, k) ==> s.coords[k] == Midpoint(k, before[k - 1], before[k + 1]))
      && (!Fixable(before, k) ==> s.coords[k] == start[k])
  {
    FixedUntouched(start, keys, n);
    if j == n - 1 {
      FixedUntouched(start, keys, j);
      assert keys[j] !in keys[..j];
    } else {
      FixedValues(start, keys, n - 1, j);
      assert keys[j] != keys[n - 1];
    }
  }

  /** Every fixed light ends up with positive x and y, and is stored in the
      map as listed in `fixed`. */
  lemma {:induction false} FixedResolved(start: map<int, Coord3d>, keys: seq<int>, n: nat)
    requires n <= |keys| && Distinct(keys)
    ensures var s := Fixed(start, keys, n);
      forall c | c in s.fixed ::
        && c.ledId in keys[..n] && c.x > 0 && c.y > 0
        && c.ledId in s.coords && s.coords[c.ledId] == c
  {
    if n > 0 {
      FixedResolved(start, keys, n - 1);
      assert keys[..n] == keys[..n - 1] + [keys[n - 1]];
      assert keys[n - 1] !in keys[..n - 1];
    }
  }

  /** The lights main reports as unfixable in the final map. */
  predicate Unfixable(coords: map<int, Coord3d>, k: int)
  {
    k in coords && coords[k].x == 0 && coords[k].y == 0 && !ReliableNeighbors(coords, k)
  }

  function UnfixableIds(coords: map<int, Coord3d>): (s: set<int>)
    ensures forall k :: k in s <==> Unfixable(coords, k)
  {
    set k | k in coords && Unfixable(coords, k)
  }

  /** The reporting loop of main: the ids it prints, in key order. A light
      is reported only when both x and y are 0 and a neighbour is missing
      or lacks x or y. */
  method ReportUnfixable(coords: map<int, Coord3d>, keys: seq<int>) returns (reported: seq<int>)
    requires Enumerates(keys, coords.Keys)
    ensures forall k :: k in reported <==> Unfixable(coords, k)
    ensures Distinct(reported)
  {
    ListedAt(keys, coords.Keys);
    reported := [];
    for i := 0 to |keys|
      invariant reported == Selected(keys, i, UnfixableIds(coords))
    {
      var k := keys[i];
      var v := coords[k];
      if v.x == 0 && v.y == 0 {
        if !ReliableNeighbors(coords, k) {
          reported := reported + [k];
        }
      }
    }
    SelectedSpec(keys, |keys|, UnfixableIds(coords));
    assert keys[..|keys|] == keys;
  }

  /** What main writes and prints. */
  datatype LegacyOutcome = LegacyOutcome(coords: map<int, Coord3d>, order: seq<int>, missingX: seq<int>,
                                         missingY: seq<int>, fixed: seq<Coord3d>, unfixable: seq<int>)

  /** The steps of main after reading: the map and `fixed` are what the fix
      loop makes of the square readings over the lights in shot-table
      order; missingx and missingy list, in that order, the lights with no
      shot for that axis; a light resolved by the square shots, or still
      unresolved at the end, keeps its reading; every fixed light ends
      with positive x and y; the report lists exactly the unfixable
      lights. */
  method LegacyPasses(shots: map<int, seq<Snap>>, ids: seq<int>) returns (r: LegacyOutcome)
    requires NonEmptyGroups(shots) && Enumerates(ids, shots.Keys)
    ensures FixState(r.coords, r.fixed) == Fixed(LegacyReadings(shots), ids, |ids|)
    ensures r.coords.Keys == shots.Keys && r.order == ids
    ensures r.missingX == Selected(ids, |ids|, NoX(shots)) && r.missingY == Selected(ids, |ids|, NoY(shots))
    ensures forall k :: k in r.missingX <==> k in shots && NoneFacing(shots[k], 0, 180)
    ensures forall k :: k in r.missingY <==> k in shots && NoneFacing(shots[k], 270, 90)
    ensures forall k | k in shots && !Unresolved(LegacyCoord(k, shots[k])) :: r.coords[k] == LegacyCoord(k, shots[k])
    ensures forall k | k in shots && Unresolved(r.coords[k]) :: r.coords[k] == LegacyCoord(k, shots[k])
    ensures forall c | c in r.fixed :: c.ledId in r.coords && r.coords[c.ledId] == c && c.x > 0 && c.y > 0
    ensures forall k :: k in r.unfixable <==> Unfixable(r.coords, k)
  {
    var readings := LegacyReadings(shots);
    var coords, missingX, missingY := LegacySquarePass(shots, ids, readings, NoX(shots), NoY(shots));
    SelectedSpec(ids, |ids|, NoX(shots));
    SelectedSpec(ids, |ids|, NoY(shots));
    assert ids[..|ids|] == ids;
    var fixedCoords, fixed := FixNeighbors(coords, ids);
    FixedUnresolvedKept(coords, ids);
    var unfixable := ReportUnfixable(fixedCoords, ids);
    r := LegacyOutcome(fixedCoords, ids, missingX, missingY, fixed, unfixable);
  }

  /** A light the loop leaves without x or y was never replaced: the
      replacement always has both. */
  lemma FixedUnresolvedKept(start: map<int, Coord3d>, keys: seq<int>)
    requires Enumerates(keys, start.Keys)
    ensures var s := Fixed(start, keys, |keys|);
      && s.coords.Keys == start.Keys
      && forall k | k in start && Unresolved(s.coords[k]) :: s.coords[k] == start[k]
  {
    FixedUntouched(start, keys, |keys|);
    forall k | k in start && Unresolved(Fixed(start, keys, |keys|).coords[k])
      ensures Fixed(start, keys, |keys|).coords[k] == start[k]
    {
      assert k in keys;
      var j :| 0 <= j < |keys| && keys[j] == k;
      FixedValues(start, keys, |keys|, j);
    }
  }

  /** A light with x and y already set is never replaced, so it still has
      them when its turn comes. */
  lemma {:induction false} FixedStillResolved(start: map<int, Coord3d>, keys: seq<int>, j: nat)
    requires j < |keys| && Distinct(keys) && keys[j] in start && !Unresolved(start[keys[j]])
    ensures !Fixable(Fixed(start, keys, j).coords, keys[j])
  {
    FixedUntouched(start, keys, j);
    assert keys[j] !in keys[..j];
  }

  /** main, from the lines of the scan file; None where int() rejects a
      line, and otherwise the steps after reading over the table built
      from the file, in order of first appearance. */
  method LegacyMain(lines: seq<string>) returns (r: Option<LegacyOutcome>)
    ensures r.None? <==> exists i | 0 <= i < |lines| :: ParseLine(lines[i]).None?
    ensures r.Some? ==> var shots := Grouped(KeptSnaps(lines, ParseLine)); var ids := GroupOrder(KeptSnaps(lines, ParseLine));
      && NonEmptyGroups(shots)
      && FixState(r.value.coords, r.value.fixed) == Fixed(LegacyReadings(shots), ids, |ids|)
      && r.value.coords.Keys == shots.Keys && r.value.order == ids && Enumerates(ids, shots.Keys)
      && r.value.missingX == Selected(ids, |ids|, NoX(shots)) && r.value.missingY == Selected(ids, |ids|, NoY(shots))
      && (forall k :: k in r.value.missingX <==> k in shots && NoneFacing(shots[k], 0, 180))
      && (forall k :: k in r.value.missingY <==> k in shots && NoneFacing(shots[k], 270, 90))
      && (forall k | k in shots && !Unresolved(LegacyCoord(k, shots[k])) :: r.value.coords[k] == LegacyCoord(k, shots[k]))
      && (forall k | k in shots && Unresolved(r.value.coords[k]) :: r.value.coords[k] == LegacyCoord(k, shots[k]))
      && (forall c | c in r.value.fixed :: c.ledId in r.value.coords && r.value.coords[c.ledId] == c && c.x > 0 && c.y > 0)
      && (forall k :: k in r.value.unfixable <==> Unfixable(r.value.coords, k))
  {
    var parsed := ParseLines(lines);
    if parsed.BadLine? {
      return None;
    }
    GroupedSpec(KeptSnaps(lines, ParseLine));
    var outcome := LegacyPasses(parsed.shots, parsed.ids);
    r := Some(outcome);
  }
}
