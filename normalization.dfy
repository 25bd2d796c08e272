/** normalize_coordinates of code/s3_coordinate_processing.py: the pixel
    coordinates are moved to the centre of the photograph, z is turned
    upside down so that the lowest light is at 0, and everything is divided
    by the x or y value of largest magnitude. The results are floats, so
    they are `real` here. */
module Normalization {
  import opened Wrappers
  import opened Coords
  import opened Reconstruction

  datatype Point = Point(ledId: int, x: real, y: real, z: real)

  function Abs(r: real): real
  {
    if r < 0.0 then -r else r
  }

  /** normalize_coord_to_center */
  function Centered(c: Coord3d): (p: Point)
    ensures p.ledId == c.ledId
    ensures (p.x, p.y, p.z) == NormalizeToCenter((c.x as real, c.y as real, c.z as real))
  {
    var v := NormalizeToCenter((c.x as real, c.y as real, c.z as real));
    Point(c.ledId, v.0, v.1, v.2)
  }

  /** min() of a non-empty list. */
  function Min(s: seq<real>): (m: real)
    requires |s| > 0
    ensures m in s && forall i | 0 <= i < |s| :: m <= s[i]
  {
    if |s| == 1 then s[0]
    else
      var rest := Min(s[1..]);
      assert forall i | 1 <= i < |s| :: s[i] == s[1..][i - 1];
      if rest < s[0] then rest else s[0]
  }

  /** max() of a non-empty list. */
  function Max(s: seq<real>): (m: real)
    requires |s| > 0
    ensures m in s && forall i | 0 <= i < |s| :: s[i] <= m
  {
    if |s| == 1 then s[0]
    else
      var rest := Max(s[1..]);
      assert forall i | 1 <= i < |s| :: s[i] == s[1..][i - 1];
      if rest > s[0] then rest else s[0]
  }

  /** max(s, key=abs): the first element of largest magnitude, with its
      sign. */
  function MaxByAbs(s: seq<real>): (m: real)
    requires |s| > 0
    ensures m in s && forall i | 0 <= i < |s| :: Abs(s[i]) <= Abs(m)
    ensures exists j | 0 <= j < |s| :: s[j] == m && forall i | 0 <= i < j :: Abs(s[i]) < Abs(m)
  {
    if |s| == 1 then s[0]
    else
      var rest := MaxByAbs(s[1..]);
      assert forall i | 1 <= i < |s| :: s[i] == s[1..][i - 1];
      if Abs(rest) > Abs(s[0]) then
        var j :| 0 <= j < |s[1..]| && s[1..][j] == rest && forall i | 0 <= i < j :: Abs(s[1..][i]) < Abs(rest);
        assert s[j + 1] == rest && forall i | 0 <= i < j + 1 :: Abs(s[i]) < Abs(rest);
        rest
      else s[0]
  }

  function Xs(ps: seq<Point>): (r: seq<real>)
    ensures |r| == |ps| && forall i | 0 <= i < |ps| :: r[i] == ps[i].x
  {
    seq(|ps|, i requires 0 <= i < |ps| => ps[i].x)
  }

  function Ys(ps: seq<Point>): (r: seq<real>)
    ensures |r| == |ps| && forall i | 0 <= i < |ps| :: r[i] == ps[i].y
  {
    seq(|ps|, i requires 0 <= i < |ps| => ps[i].y)
  }

  function Zs(ps: seq<Point>): (r: seq<real>)
    ensures |r| == |ps| && forall i | 0 <= i < |ps| :: r[i] == ps[i].z
  {
    seq(|ps|, i requires 0 <= i < |ps| => ps[i].z)
  }

  function CenteredAll(cs: seq<Coord3d>): (ps: seq<Point>)
    ensures |ps| == |cs| && forall i | 0 <= i < |cs| :: ps[i] == Centered(cs[i])
  {
    seq(|cs|, i requires 0 <= i < |cs| => Centered(cs[i]))
  }

  /** The two numbers the normalisation is defined by: the height of the
      highest light after centring, and the divisor, which as written is
      the x or y extreme of largest magnitude, sign included. */
  datatype Frame = Frame(maxZ: real, factor: real)

  function FrameOf(cs: seq<Coord3d>): Frame
    requires |cs| > 0
  {
    var centered := CenteredAll(cs);
    var xs, ys := Xs(centered), Ys(centered);
    Frame(Max(Zs(centered)), MaxByAbs([Min(xs), Max(xs), Min(ys), Max(ys)]))
  }

  lemma AbsBetween(v: real, lo: real, hi: real, m: real)
    requires lo <= v <= hi && Abs(lo) <= Abs(m) && Abs(hi) <= Abs(m)
    ensures Abs(v) <= Abs(m)
  {
  }

  /** No centred light is higher than maxZ, and no centred x or y is
      larger in magnitude than the divisor. */
  lemma FrameBounds(cs: seq<Coord3d>)
    requires |cs| > 0
    ensures forall i | 0 <= i < |cs| :: Centered(cs[i]).z <= FrameOf(cs).maxZ
    ensures forall i | 0 <= i < |cs| :: Abs(Centered(cs[i]).x) <= Abs(FrameOf(cs).factor) && Abs(Centered(cs[i]).y) <= Abs(FrameOf(cs).factor)
  {
    var centered := CenteredAll(cs);
    var xs, ys := Xs(centered), Ys(centered);
    var candidates := [Min(xs), Max(xs), Min(ys), Max(ys)];
    var f := MaxByAbs(candidates);
    assert Abs(candidates[0]) <= Abs(f) && Abs(candidates[1]) <= Abs(f);
    assert Abs(candidates[2]) <= Abs(f) && Abs(candidates[3]) <= Abs(f);
    forall i | 0 <= i < |cs|
      ensures Abs(Centered(cs[i]).x) <= Abs(f) && Abs(Centered(cs[i]).y) <= Abs(f)
    {
      AbsBetween(xs[i], Min(xs), Max(xs), f);
      AbsBetween(ys[i], Min(ys), Max(ys), f);
    }
  }

  /** Some centred light is at maxZ, and the divisor is one centred x or
      y. */
  lemma FrameWitnesses(cs: seq<Coord3d>) returns (top: nat, extreme: nat)
    requires |cs| > 0
    ensures top < |cs| && Centered(cs[top]).z == FrameOf(cs).maxZ
    ensures extreme < |cs| && (Centered(cs[extreme]).x == FrameOf(cs).factor || Centered(cs[extreme]).y == FrameOf(cs).factor)
  {
    var centered := CenteredAll(cs);
    var xs, ys, zs := Xs(centered), Ys(centered), Zs(centered);
    var f := MaxByAbs([Min(xs), Max(xs), Min(ys), Max(ys)]);
    top :| top < |cs| && zs[top] == Max(zs);
    if f == Min(xs) || f == Max(xs) {
      extreme :| extreme < |cs| && xs[extreme] == f;
    } else {
      extreme :| extreme < |cs| && ys[extreme] == f;
    }
  }

  /** Both together. */
  lemma FrameOfSpec(cs: seq<Coord3d>) returns (top: nat, extreme: nat)
    requires |cs| > 0
    ensures top < |cs| && Centered(cs[top]).z == FrameOf(cs).maxZ
    ensures forall i | 0 <= i < |cs| :: Centered(cs[i]).z <= FrameOf(cs).maxZ
    ensures forall i | 0 <= i < |cs| :: Abs(Centered(cs[i]).x) <= Abs(FrameOf(cs).factor) && Abs(Centered(cs[i]).y) <= Abs(FrameOf(cs).factor)
    ensures extreme < |cs| && (Centered(cs[extreme]).x == FrameOf(cs).factor || Centered(cs[extreme]).y == FrameOf(cs).factor)
  {
    FrameBounds(cs);
    top, extreme := FrameWitnesses(cs);
  }

  /** One light after inverting z and dividing by `factor`. */
  function Scale(c: Coord3d, maxZ: real, factor: real): (p: Point)
    requires factor != 0.0
    ensures p.ledId == c.ledId
  {
    var q := Centered(c);
    Point(q.ledId, q.x / factor, q.y / factor, (maxZ - q.z) / factor)
  }

  /** The scaled list as normalize_coordinates computes it, or None where
      it raises: min() of an empty map, or a divisor of 0 when every light
      sits on the centre column. */
  function Normalized(cs: seq<Coord3d>): (r: Option<seq<Point>>)
    ensures r.Some? <==> |cs| > 0 && FrameOf(cs).factor != 0.0
    ensures r.Some? ==> |r.value| == |cs|
    ensures r.Some? ==> forall i | 0 <= i < |cs| :: r.value[i] == Scale(cs[i], FrameOf(cs).maxZ, FrameOf(cs).factor)
  {
    if |cs| == 0 then None
    else
      var f := FrameOf(cs);
      if f.factor == 0.0 then None
      else Some(seq(|cs|, i requires 0 <= i < |cs| => Scale(cs[i], f.maxZ, f.factor)))
  }

  lemma ProductPositive(u: real, m: real)
    requires u > 0.0 && m > 0.0
    ensures u * m > 0.0
  {
  }

  lemma UnitBound(p: real, m: real, a: real)
    requires m > 0.0 && p * m == a && -m <= a <= m
    ensures -1.0 <= p <= 1.0
    ensures a == m ==> p == 1.0
    ensures a == -m ==> p == -1.0
  {
    if p > 1.0 {
      ProductPositive(p - 1.0, m);
    }
    if p < -1.0 {
      ProductPositive(-1.0 - p, m);
    }
    if a == m {
      assert (p - 1.0) * m == 0.0;
    }
    if a == -m {
      assert (p + 1.0) * m == 0.0;
    }
  }

  /** A value no larger in magnitude than the divisor lands in [-1, 1],
      and on -1 or 1 when the magnitudes agree. */
  lemma DivBound(a: real, f: real)
    requires f != 0.0 && Abs(a) <= Abs(f)
    ensures Abs(a / f) <= 1.0
    ensures Abs(a) == Abs(f) ==> Abs(a / f) == 1.0
  {
    var q := a / f;
    assert q * f == a;
    var m := Abs(f);
    var p := if f > 0.0 then q else -q;
    assert p * m == a by {
      if f < 0.0 {
        assert p * m == (-q) * (-f) == q * f;
      }
    }
    UnitBound(p, m, a);
  }

  /** Dividing keeps the sign for a positive divisor and flips it for a
      negative one. */
  lemma DivSign(d: real, f: real)
    requires f != 0.0
    ensures f > 0.0 ==> (d / f < 0.0 <==> d < 0.0) && (d / f == 0.0 <==> d == 0.0)
    ensures f < 0.0 ==> (d / f > 0.0 <==> d < 0.0) && (d / f == 0.0 <==> d == 0.0)
  {
    var q := d / f;
    assert q * f == d;
  }

  /** One light's height after the division: on the divisor's side of 0,
      and 0 for the highest light. */
  lemma ScaleHeight(c: Coord3d, maxZ: real, factor: real)
    requires factor != 0.0 && Centered(c).z <= maxZ
    ensures factor > 0.0 ==> Scale(c, maxZ, factor).z >= 0.0
    ensures factor < 0.0 ==> Scale(c, maxZ, factor).z <= 0.0
    ensures Centered(c).z == maxZ ==> Scale(c, maxZ, factor).z == 0.0
  {
    DivSign(maxZ - Centered(c).z, factor);
  }

  /** One light's x and y after the division: within [-1, 1], and on -1 or
      1 when the centred value is as large as the divisor. */
  lemma ScaleRadius(c: Coord3d, maxZ: real, factor: real)
    requires factor != 0.0 && Abs(Centered(c).x) <= Abs(factor) && Abs(Centered(c).y) <= Abs(factor)
    ensures Abs(Scale(c, maxZ, factor).x) <= 1.0 && Abs(Scale(c, maxZ, factor).y) <= 1.0
    ensures Abs(Centered(c).x) == Abs(factor) || Abs(Centered(c).y) == Abs(factor) ==>
      Abs(Scale(c, maxZ, factor).x) == 1.0 || Abs(Scale(c, maxZ, factor).y) == 1.0
  {
    DivBound(Centered(c).x, factor);
    DivBound(Centered(c).y, factor);
  }

  /** Whatever the divisor's sign, every x and y lands in [-1, 1] and one
      of them is at -1 or 1. */
  lemma {:induction false} NormalizedUnitRadius(cs: seq<Coord3d>) returns (extreme: nat)
    requires Normalized(cs).Some?
    ensures forall i | 0 <= i < |cs| :: Abs(Normalized(cs).value[i].x) <= 1.0 && Abs(Normalized(cs).value[i].y) <= 1.0
    ensures extreme < |cs| && (Abs(Normalized(cs).value[extreme].x) == 1.0 || Abs(Normalized(cs).value[extreme].y) == 1.0)
  {
    var f := FrameOf(cs);
    var top;
    top, extreme := FrameOfSpec(cs);
    forall i | 0 <= i < |cs|
      ensures Abs(Normalized(cs).value[i].x) <= 1.0 && Abs(Normalized(cs).value[i].y) <= 1.0
    {
      ScaleRadius(cs[i], f.maxZ, f.factor);
    }
    ScaleRadius(cs[extreme], f.maxZ, f.factor);
  }

  /** As written, the heights are non-negative only when the divisor is
      positive; a negative divisor puts every light at or below 0. */
  lemma {:induction false} NormalizedHeightSign(cs: seq<Coord3d>)
    requires Normalized(cs).Some?
    ensures FrameOf(cs).factor > 0.0 ==> forall i | 0 <= i < |cs| :: Normalized(cs).value[i].z >= 0.0
    ensures FrameOf(cs).factor < 0.0 ==> forall i | 0 <= i < |cs| :: Normalized(cs).value[i].z <= 0.0
  {
    var f := FrameOf(cs);
    var top, extreme := FrameOfSpec(cs);
    forall i | 0 <= i < |cs|
      ensures f.factor > 0.0 ==> Normalized(cs).value[i].z >= 0.0
      ensures f.factor < 0.0 ==> Normalized(cs).value[i].z <= 0.0
    {
      ScaleHeight(cs[i], f.maxZ, f.factor);
    }
  }

  /** The frame of two lights left of the centre column. */
  lemma LeftPairFrame()
    ensures FrameOf([Coord3d(0, 0, 545, 0), Coord3d(1, 100, 545, 10)]) == Frame(10.0, -535.0)
  {
    var cs := [Coord3d(0, 0, 545, 0), Coord3d(1, 100, 545, 10)];
    var centered := CenteredAll(cs);
    assert centered == [Point(0, -535.0, 0.0, 0.0), Point(1, -435.0, 0.0, 10.0)];
    var xs, ys, zs := Xs(centered), Ys(centered), Zs(centered);
    assert xs == [-535.0, -435.0] && ys == [0.0, 0.0] && zs == [0.0, 10.0];
    assert Max(zs) == 10.0;
    assert Min(xs) == -535.0 && Max(xs) == -435.0 && Min(ys) == 0.0 && Max(ys) == 0.0;
    LeftPairDivisor();
  }

  /** On a tie in magnitude the earlier bound is the divisor: min_x = -300
      listed before max_y = 300 gives -300. */
  lemma MaxByAbsTie()
    ensures MaxByAbs([-300.0, 300.0]) == -300.0
  {
    var s := [-300.0, 300.0];
    var m := MaxByAbs(s);
    var j :| 0 <= j < |s| && s[j] == m && forall i | 0 <= i < j :: Abs(s[i]) < Abs(m);
    assert j == 0;
  }

  /** Only -535 reaches the largest magnitude among those four bounds. */
  lemma LeftPairDivisor()
    ensures MaxByAbs([-535.0, -435.0, 0.0, 0.0]) == -535.0
  {
    var s := [-535.0, -435.0, 0.0, 0.0];
    var m := MaxByAbs(s);
    assert Abs(s[0]) <= Abs(m);
    assert m == -535.0 || m == -435.0 || m == 0.0;
  }

  /** For those two lights the divisor is -535: the first light's x turns
      from negative to positive and its height comes out below 0. */
  lemma NegativeDivisorFlips()
    ensures var cs := [Coord3d(0, 0, 545, 0), Coord3d(1, 100, 545, 10)];
      && Normalized(cs).Some?
      && FrameOf(cs).factor == -535.0
      && Centered(cs[0]).x < 0.0 && Normalized(cs).value[0].x > 0.0
      && Normalized(cs).value[0].z < 0.0
  {
    var cs := [Coord3d(0, 0, 545, 0), Coord3d(1, 100, 545, 10)];
    LeftPairFrame();
    assert Centered(cs[0]) == Point(0, -535.0, 0.0, 0.0);
    assert Normalized(cs).value[0] == Scale(cs[0], 10.0, -535.0);
  }

  /** The evidently intended scaling: divide by the magnitude, so that
      every light keeps its side of the centre and the lowest light sits
      at height 0. */
  function NormalizedByMagnitude(cs: seq<Coord3d>): (r: Option<seq<Point>>)
    ensures r.Some? <==> |cs| > 0 && FrameOf(cs).factor != 0.0
    ensures r.Some? ==> |r.value| == |cs|
    ensures r.Some? ==> forall i | 0 <= i < |cs| :: r.value[i] == Scale(cs[i], FrameOf(cs).maxZ, Abs(FrameOf(cs).factor))
  {
    if |cs| == 0 then None
    else
      var f := FrameOf(cs);
      if f.factor == 0.0 then None
      else Some(seq(|cs|, i requires 0 <= i < |cs| => Scale(cs[i], f.maxZ, Abs(f.factor))))
  }

  /** With the magnitude as divisor: x and y keep their side of the centre,
      no height is negative and the highest light before inversion sits at
      0, and the largest x or y magnitude is 1. */
  lemma {:induction false} NormalizedByMagnitudeSpec(cs: seq<Coord3d>) returns (lowest: nat, extreme: nat)
    requires NormalizedByMagnitude(cs).Some?
    ensures forall i | 0 <= i < |cs| ::
      && (NormalizedByMagnitude(cs).value[i].x < 0.0 <==> Centered(cs[i]).x < 0.0)
      && (NormalizedByMagnitude(cs).value[i].y < 0.0 <==> Centered(cs[i]).y < 0.0)
      && NormalizedByMagnitude(cs).value[i].z >= 0.0
      && Abs(NormalizedByMagnitude(cs).value[i].x) <= 1.0 && Abs(NormalizedByMagnitude(cs).value[i].y) <= 1.0
    ensures lowest < |cs| && NormalizedByMagnitude(cs).value[lowest].z == 0.0
    ensures extreme < |cs| &&
      (Abs(NormalizedByMagnitude(cs).value[extreme].x) == 1.0 || Abs(NormalizedByMagnitude(cs).value[extreme].y) == 1.0)
  {
    var f := FrameOf(cs);
    var m := Abs(f.factor);
    assert Abs(m) == Abs(f.factor);
    lowest, extreme := FrameOfSpec(cs);
    forall i | 0 <= i < |cs|
      ensures && (NormalizedByMagnitude(cs).value[i].x < 0.0 <==> Centered(cs[i]).x < 0.0)
              && (NormalizedByMagnitude(cs).value[i].y < 0.0 <==> Centered(cs[i]).y < 0.0)
              && NormalizedByMagnitude(cs).value[i].z >= 0.0
              && Abs(NormalizedByMagnitude(cs).value[i].x) <= 1.0 && Abs(NormalizedByMagnitude(cs).value[i].y) <= 1.0
    {
      DivSign(Centered(cs[i]).x, m);
      DivSign(Centered(cs[i]).y, m);
      ScaleHeight(cs[i], f.maxZ, m);
      ScaleRadius(cs[i], f.maxZ, m);
    }
    ScaleHeight(cs[lowest], f.maxZ, m);
    ScaleRadius(cs[extreme], f.maxZ, m);
  }

  /** Every entry is stored under its own light's id, as every stage of
      the pipeline stores it. */
  predicate KeyedById(coordinates: map<int, Coord3d>)
  {
    forall k | k in coordinates :: coordinates[k].ledId == k
  }

  /** coordinates.values(), in the map's order. */
  function Values(coordinates: map<int, Coord3d>, order: seq<int>): (cs: seq<Coord3d>)
    requires forall k | k in order :: k in coordinates
    ensures |cs| == |order| && forall i | 0 <= i < |order| :: order[i] in coordinates && cs[i] == coordinates[order[i]]
  {
    ListedAt(order, coordinates.Keys);
    seq(|order|, i requires 0 <= i < |order| => coordinates[order[i]])
  }

  /** The light ids of a sequence of points. */
  function Ids(points: seq<Point>): (ids: seq<int>)
    ensures |ids| == |points| && forall i | 0 <= i < |points| :: ids[i] == points[i].ledId
  {
    seq(|points|, i requires 0 <= i < |points| => points[i].ledId)
  }

  /** `for c in scaled: coordinates[c.led_id] = c`: every point is written
      under its id, and a key no point names keeps its entry. */
  method StoreAll(start: map<int, Point>, points: seq<Point>) returns (result: map<int, Point>)
    ensures forall k :: k in result <==> k in start || k in Ids(points)
    ensures Distinct(Ids(points)) ==> forall i | 0 <= i < |points| :: result[points[i].ledId] == points[i]
    ensures forall k | k in start && k !in Ids(points) :: result[k] == start[k]
  {
    result := start;
    ghost var ids := Ids(points);
    for i := 0 to |points|
      invariant forall k :: k in result <==> k in start || k in ids[..i]
      invariant Distinct(ids) ==> forall j | 0 <= j < i :: result[points[j].ledId] == points[j]
      invariant forall k | k in start && k !in ids[..i] :: result[k] == start[k]
    {
      assert ids[..i + 1] == ids[..i] + [ids[i]];
      result := result[points[i].ledId := points[i]];
    }
    assert ids[..|points|] == ids;
  }

  /** Scaling keeps every light's id, so when the map is keyed by id the
      scaled points name the keys in the map's order. */
  lemma NormalizedKeepsIds(coordinates: map<int, Coord3d>, order: seq<int>)
    requires forall k | k in order :: k in coordinates
    requires KeyedById(coordinates) && Normalized(Values(coordinates, order)).Some?
    ensures Ids(Normalized(Values(coordinates, order)).value) == order
  {
    var cs := Values(coordinates, order);
    var scaled := Normalized(cs).value;
    var ids := Ids(scaled);
    forall i | 0 <= i < |order|
      ensures ids[i] == order[i]
    {
      assert scaled[i].ledId == cs[i].ledId == coordinates[order[i]].ledId;
    }
    assert |ids| == |order|;
  }

  /** The integer coordinates as points with real axes, under the same
      keys. */
  function AsPoints(coordinates: map<int, Coord3d>): (ps: map<int, Point>)
    ensures ps.Keys == coordinates.Keys
    ensures forall k | k in ps :: ps[k] == Point(coordinates[k].ledId, coordinates[k].x as real, coordinates[k].y as real, coordinates[k].z as real)
  {
    map k | k in coordinates :: Point(coordinates[k].ledId, coordinates[k].x as real, coordinates[k].y as real, coordinates[k].z as real)
  }

  /** normalize_coordinates on a coordinate map listed by `order`; None
      where the source fails (no lights: min() of nothing; a zero divisor).
      The values become floats, so the map here is a new one that starts
      from the old entries. */
  method NormalizeCoordinates(coordinates: map<int, Coord3d>, order: seq<int>) returns (r: Option<map<int, Point>>)
    requires Enumerates(order, coordinates.Keys)
    ensures r.Some? <==> Normalized(Values(coordinates, order)).Some?
    ensures r.Some? && KeyedById(coordinates) ==> r.value.Keys == coordinates.Keys
    ensures r.Some? && KeyedById(coordinates) ==> forall i | 0 <= i < |order| ::
      r.value[order[i]] == Normalized(Values(coordinates, order)).value[i]
  {
    var values := Values(coordinates, order);
    var scaled := Normalized(values);
    if scaled.None? {
      return None;
    }
    var start := AsPoints(coordinates);
    var points := scaled.value;
    var result := StoreAll(start, points);
    if KeyedById(coordinates) {
      NormalizedKeepsIds(coordinates, order);
      assert Ids(points) == order;
      assert forall k :: k in result <==> k in coordinates;
      assert result.Keys == coordinates.Keys;
      forall i | 0 <= i < |order|
        ensures result[order[i]] == points[i]
      {
        assert points[i].ledId == order[i];
      }
    }
    r := Some(result);
  }
}
