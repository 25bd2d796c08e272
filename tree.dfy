/** code/treehero/tree.py: the real tree as the game's display. Each light
    is put in one of five lanes by the line from an anchor at the bottom to
    a point above the top of the tree, and gets a ratio telling how far
    down the tree it sits. Each rendered frame lights the lights near a
    note and the target zone at the bottom, and then forgets the notes and
    fret presses registered for it. */
module Tree {
  import opened Wrappers
  import opened Text
  import opened Coords

  const LaneCount := 5
  const TargetRatio := 0.93
  const PixBrightnessThreshold := 0.05

  const Grey := (100, 100, 100)
  /** COLORS_PRESSED: green, red, yellow, blue, orange. */
  const ColorsPressed: seq<(int, int, int)> := [(0, 255, 0), (255, 100, 0), (255, 255, 0), (0, 0, 255), (255, 160, 0)]

  /** Bucket(lane_num, ratio) */
  datatype Bucket = Bucket(laneNum: int, ratio: real)
  /** Note(lane_num, ratio) */
  datatype Note = Note(laneNum: int, ratio: real)

  /** The x-z cross product of b - a and c - a. */
  function Cross(a: Coord3d, b: Coord3d, c: Coord3d): int
  {
    (b.x - a.x) * (c.z - a.z) - (b.z - a.z) * (c.x - a.x)
  }

  /** is_left_of(a, b, c): c lies left of the line from a to b. */
  predicate IsLeftOf(a: Coord3d, b: Coord3d, c: Coord3d)
  {
    Cross(a, b, c) > 0
  }

  /** A point on the line is not left of it, and swapping the ends of the
      line negates the cross product, so c is never left of both. */
  lemma LeftOfProperties(a: Coord3d, b: Coord3d, c: Coord3d)
    ensures !IsLeftOf(a, b, a) && !IsLeftOf(a, b, b)
    ensures Cross(b, a, c) == -Cross(a, b, c)
    ensures !(IsLeftOf(a, b, c) && IsLeftOf(b, a, c))
  {
    var dx, dz := b.x - a.x, b.z - a.z;
    var ux, uz := c.x - a.x, c.z - a.z;
    assert Cross(a, b, b) == dx * dz - dz * dx;
    assert c.z - b.z == uz - dz && c.x - b.x == ux - dx;
    assert Cross(b, a, c) == (-dx) * (uz - dz) - (-dz) * (ux - dx);
    assert (-dx) * (uz - dz) == -(dx * uz) + dx * dz;
    assert (-dz) * (ux - dx) == -(dz * ux) + dz * dx;
  }

  /** get_ratio(z): 0 at the top of the tree and 1 at z = 0. */
  function Ratio(z: int, maxZ: int): real
    requires maxZ != 0
  {
    (maxZ - z) as real / maxZ as real
  }

  /** The ratio is 0 at the top and 1 at height 0, and below a positive
      top it lies in [0, 1]. */
  lemma RatioBounds(z: int, maxZ: int)
    requires maxZ != 0
    ensures Ratio(maxZ, maxZ) == 0.0 && Ratio(0, maxZ) == 1.0
    ensures 0 <= z <= maxZ ==> 0.0 <= Ratio(z, maxZ) <= 1.0
  {
    var m := maxZ as real;
    assert m / m == 1.0;
    if 0 <= z <= maxZ {
      var d := (maxZ - z) as real;
      assert d <= m;
      assert d / m <= m / m;
    }
  }

  /** The five anchors: x = int(min_x + delta_x * i) for i = 1..5 with
      delta_x a fifth of the x range, at height 0. */
  function Anchors(minX: int, maxX: int): (anchors: seq<Coord3d>)
    ensures |anchors| == LaneCount
    ensures forall i | 0 <= i < LaneCount :: anchors[i] == Coord3d(-1, AnchorX(minX, maxX, i + 1), 0, 0)
  {
    seq(LaneCount, i requires 0 <= i < LaneCount => Coord3d(-1, AnchorX(minX, maxX, i + 1), 0, 0))
  }

  function AnchorX(minX: int, maxX: int, i: int): int
  {
    Trunc(AnchorPos(minX, maxX, i))
  }

  /** min_x + delta_x * i, before int(). */
  function AnchorPos(minX: int, maxX: int, i: int): real
  {
    minX as real + ((maxX - minX) as real / 5.0) * i as real
  }

  /** The anchors spread over [min_x, max_x] left to right and the last
      is at max_x. */
  lemma AnchorsSpread(minX: int, maxX: int, i: int, j: int)
    requires minX <= maxX && 1 <= i <= j <= LaneCount
    ensures minX <= AnchorX(minX, maxX, i) <= AnchorX(minX, maxX, j) <= maxX
    ensures AnchorX(minX, maxX, LaneCount) == maxX
  {
    AnchorPosOrdered(minX, maxX, i, j);
    TruncChain(minX, maxX, AnchorPos(minX, maxX, i), AnchorPos(minX, maxX, j));
    AnchorAtMax(minX, maxX);
  }

  /** Before int(), the anchors lie in order between min_x and max_x. */
  lemma AnchorPosOrdered(minX: int, maxX: int, i: int, j: int)
    requires minX <= maxX && 1 <= i <= j <= LaneCount
    ensures minX as real <= AnchorPos(minX, maxX, i) <= AnchorPos(minX, maxX, j) <= maxX as real
  {
    var delta := (maxX - minX) as real / 5.0;
    assert delta >= 0.0;
    StepsBetween(delta, i, j);
    AnchorAtMax(minX, maxX);
    assert AnchorPos(minX, maxX, i) == minX as real + delta * i as real;
    assert AnchorPos(minX, maxX, j) == minX as real + delta * j as real;
    assert minX as real + delta * 5.0 == maxX as real;
  }

  lemma TruncChain(lo: int, hi: int, u: real, v: real)
    requires lo as real <= u <= v <= hi as real
    ensures lo <= Trunc(u) <= Trunc(v) <= hi
  {
    TruncOfInteger(lo);
    TruncOfInteger(hi);
    TruncMonotone(lo as real, u);
    TruncMonotone(u, v);
    TruncMonotone(v, hi as real);
  }

  lemma AnchorAtMax(minX: int, maxX: int)
    ensures AnchorX(minX, maxX, LaneCount) == maxX
    ensures minX as real + ((maxX - minX) as real / 5.0) * 5.0 == maxX as real
  {
    TruncOfInteger(maxX);
  }

  lemma StepsBetween(delta: real, i: int, j: int)
    requires delta >= 0.0 && 1 <= i <= j <= LaneCount
    ensures 0.0 <= delta * i as real <= delta * j as real <= delta * 5.0
  {
    NonNegativeProduct(delta, i as real);
    NonNegativeProduct(delta, (j - i) as real);
    NonNegativeProduct(delta, (5 - j) as real);
    assert delta * j as real == delta * i as real + delta * (j - i) as real;
    assert delta * 5.0 == delta * j as real + delta * (5 - j) as real;
  }

  lemma NonNegativeProduct(a: real, b: real)
    requires a >= 0.0 && b >= 0.0
    ensures a * b >= 0.0
  {
  }

  lemma TruncMonotone(u: real, v: real)
    requires u <= v
    ensures Trunc(u) <= Trunc(v)
  {
  }

  /** The lane of c: the first anchor from index i on whose line puts c to
      its left, or the last lane. */
  function LaneFrom(anchors: seq<Coord3d>, top: Coord3d, c: Coord3d, i: nat): int
    decreases |anchors| - i
  {
    if i >= |anchors| then |anchors| - 1
    else if IsLeftOf(anchors[i], top, c) then i
    else LaneFrom(anchors, top, c, i + 1)
  }

  /** The lane is the first anchor that has c on its left, or the last
      lane when none does. */
  lemma {:induction false} LaneFromSpec(anchors: seq<Coord3d>, top: Coord3d, c: Coord3d, i: nat)
    requires i <= |anchors| && anchors != []
    ensures var lane := LaneFrom(anchors, top, c, i);
      && (i <= lane < |anchors| || lane == |anchors| - 1)
      && (forall j | i <= j < lane :: !IsLeftOf(anchors[j], top, c))
      && (IsLeftOf(anchors[lane], top, c) || (lane == |anchors| - 1 && forall j | i <= j < |anchors| :: !IsLeftOf(anchors[j], top, c)))
    decreases |anchors| - i
  {
    if i < |anchors| && !IsLeftOf(anchors[i], top, c) {
      LaneFromSpec(anchors, top, c, i + 1);
    }
  }

  /** The inner loop of get_lane_assignments, which breaks at the first
      anchor with c on its left. */
  method FindLane(anchors: seq<Coord3d>, top: Coord3d, c: Coord3d) returns (lane: int)
    ensures lane == LaneFrom(anchors, top, c, 0)
  {
    var found := false;
    var i := 0;
    while i < |anchors|
      invariant 0 <= i <= |anchors|
      invariant LaneFrom(anchors, top, c, i) == LaneFrom(anchors, top, c, 0)
    {
      if IsLeftOf(anchors[i], top, c) {
        found := true;
        lane := i;
        break;
      }
      i := i + 1;
    }
    if !found {
      lane := |anchors| - 1;
    }
  }

  /** The buckets after the first n coordinates. */
  function Assignments(coords: seq<Coord3d>, n: nat, anchors: seq<Coord3d>, top: Coord3d, maxZ: int): map<int, Bucket>
    requires n <= |coords| && maxZ != 0
  {
    if n == 0 then map[]
    else
      var c := coords[n - 1];
      Assignments(coords, n - 1, anchors, top, maxZ)[c.ledId := Bucket(LaneFrom(anchors, top, c, 0), Ratio(c.z, maxZ))]
  }

  /** Every light gets exactly one bucket. */
  lemma {:induction false} AssignmentsKeys(coords: seq<Coord3d>, n: nat, anchors: seq<Coord3d>, top: Coord3d, maxZ: int)
    requires n <= |coords| && maxZ != 0
    ensures var a := Assignments(coords, n, anchors, top, maxZ);
      forall k :: k in a <==> exists i | 0 <= i < n :: coords[i].ledId == k
  {
    if n > 0 {
      AssignmentsKeys(coords, n - 1, anchors, top, maxZ);
      var a := Assignments(coords, n, anchors, top, maxZ);
      forall k
        ensures k in a <==> exists i | 0 <= i < n :: coords[i].ledId == k
      {
        if k != coords[n - 1].ledId {
          assert k in a <==> k in Assignments(coords, n - 1, anchors, top, maxZ);
          assert (exists i | 0 <= i < n :: coords[i].ledId == k) <==> (exists i | 0 <= i < n - 1 :: coords[i].ledId == k);
        }
      }
    }
  }

  /** Every bucket's lane is in range, and the bucket of a light is the
      lane and ratio of its last coordinate. */
  lemma {:induction false} AssignmentsSpec(coords: seq<Coord3d>, n: nat, anchors: seq<Coord3d>, top: Coord3d, maxZ: int)
    requires n <= |coords| && maxZ != 0 && anchors != []
    ensures var a := Assignments(coords, n, anchors, top, maxZ);
      && (forall k | k in a :: 0 <= a[k].laneNum < |anchors|)
      && (forall i | 0 <= i < n && (forall j | i < j < n :: coords[j].ledId != coords[i].ledId) ::
            coords[i].ledId in a && a[coords[i].ledId] == Bucket(LaneFrom(anchors, top, coords[i], 0), Ratio(coords[i].z, maxZ)))
  {
    if n > 0 {
      AssignmentsSpec(coords, n - 1, anchors, top, maxZ);
      LaneFromSpec(anchors, top, coords[n - 1], 0);
    }
  }

  /** min/max of a non-empty list of integers. */
  function MinOf(s: seq<int>): (m: int)
    requires s != []
    ensures m in s && forall i | 0 <= i < |s| :: m <= s[i]
  {
    if |s| == 1 then s[0]
    else
      var rest := MinOf(s[1..]);
      if s[0] <= rest then s[0] else rest
  }

  function MaxOf(s: seq<int>): (m: int)
    requires s != []
    ensures m in s && forall i | 0 <= i < |s| :: s[i] <= m
  {
    if |s| == 1 then s[0]
    else
      var rest := MaxOf(s[1..]);
      if s[0] >= rest then s[0] else rest
  }

  function Xs(coords: seq<Coord3d>): (xs: seq<int>)
    ensures |xs| == |coords| && forall i | 0 <= i < |coords| :: xs[i] == coords[i].x
  {
    seq(|coords|, i requires 0 <= i < |coords| => coords[i].x)
  }

  function Zs(coords: seq<Coord3d>): (zs: seq<int>)
    ensures |zs| == |coords| && forall i | 0 <= i < |coords| :: zs[i] == coords[i].z
  {
    seq(|coords|, i requires 0 <= i < |coords| => coords[i].z)
  }

  /** max(coords, key=z): the first coordinate of greatest height. */
  function HighestCoord(coords: seq<Coord3d>): (h: Coord3d)
    requires coords != []
    ensures h in coords && forall i | 0 <= i < |coords| :: coords[i].z <= h.z
    ensures exists j | 0 <= j < |coords| :: coords[j] == h && forall i | 0 <= i < j :: coords[i].z < h.z
  {
    if |coords| == 1 then coords[0]
    else
      var init := coords[..|coords| - 1];
      var front := HighestCoord(init);
      var last := coords[|coords| - 1];
      assert forall i | 0 <= i < |coords| - 1 :: coords[i] == coords[..|coords| - 1][i];
      if last.z > front.z then
        assert coords[|coords| - 1] == last && forall i | 0 <= i < |coords| - 1 :: coords[i].z < last.z;
        last
      else
        var j :| 0 <= j < |init| && init[j] == front && forall i | 0 <= i < j :: init[i].z < front.z;
        assert coords[j] == front && forall i | 0 <= i < j :: coords[i].z < front.z;
        front
  }

  /** The lit form of a light; the conversion of a lane colour and a
      brightness into a screen colour is pygame's and is not modelled. */
  datatype Pixel = LaneGlow(laneNum: int, brightness: real) | Solid(rgb: (int, int, int))

  /** What a light in `b` shows: its lane's colour when a note is near
      enough, else the target colour in the target zone, else nothing. */
  function PixelFor(b: Bucket, brightness: real, pressed: set<int>): (p: Option<Pixel>)
    requires 0 <= b.laneNum < LaneCount
  {
    if brightness > PixBrightnessThreshold then Some(LaneGlow(b.laneNum, brightness))
    else if b.ratio >= TargetRatio then Some(Solid(if b.laneNum in pressed then ColorsPressed[b.laneNum] else Grey))
    else None
  }

  /** get_brightness: the brightness notes give a bucket. It is a sigmoid
      of the distance to the closest note in the lane, computed in floating
      point, so it is a parameter here. */
  type Glow = (seq<Note>, Bucket) -> real

  class Tree {
    const coords: seq<Coord3d>
    const maxZ: int
    /** max_z_coord: the highest light moved to x = 0 and 200 above the
        top; every lane line runs from an anchor to it. */
    const top: Coord3d
    const laneAssignments: map<int, Bucket>
    var notes: seq<Note>
    var fretPressed: set<int>

    ghost predicate Valid()
      reads this
    {
      && maxZ != 0
      && (forall i | 0 <= i < |coords| :: coords[i].ledId in laneAssignments)
      && (forall k | k in laneAssignments :: 0 <= laneAssignments[k].laneNum < LaneCount)
    }

    /** Tree(coordinates), with the coordinate file's values in order. The
        min() and max() over them raise on an empty file, and get_ratio
        divides by the greatest height. */
    constructor (coords: seq<Coord3d>)
      requires coords != [] && MaxOf(Zs(coords)) != 0
      ensures Valid()
      ensures this.coords == coords && maxZ == MaxOf(Zs(coords))
      ensures top == HighestCoord(coords).(x := 0, z := maxZ + 200)
      ensures laneAssignments == Assignments(coords, |coords|, Anchors(MinOf(Xs(coords)), MaxOf(Xs(coords))), top, maxZ)
      ensures notes == [] && fretPressed == {}
    {
      this.coords := coords;
      var mz := MaxOf(Zs(coords));
      maxZ := mz;
      var t := WithZ(WithX(HighestCoord(coords), 0), mz + 200);
      top := t;
      var anchors := Anchors(MinOf(Xs(coords)), MaxOf(Xs(coords)));
      var a := GetLaneAssignments(coords, anchors, t, mz);
      AssignmentsKeys(coords, |coords|, anchors, t, mz);
      AssignmentsSpec(coords, |coords|, anchors, t, mz);
      laneAssignments := a;
      notes := [];
      fretPressed := {};
      forall i | 0 <= i < |coords|
        ensures coords[i].ledId in a
      {
        assert exists j | 0 <= j < |coords| :: coords[j].ledId == coords[i].ledId;
      }
    }

    /** register_note: one more note for this frame. */
    method RegisterNote(laneNum: int, ratio: real)
      modifies this
      ensures notes == old(notes) + [Note(laneNum, ratio)] && fretPressed == old(fretPressed)
    {
      notes := notes + [Note(laneNum, ratio)];
    }

    /** register_fret_press: the lane is added only when it is pressed. */
    method RegisterFretPress(laneNum: int, pressed: bool)
      modifies this
      ensures fretPressed == if pressed then old(fretPressed) + {laneNum} else old(fretPressed)
      ensures notes == old(notes)
    {
      if pressed {
        fretPressed := fretPressed + {laneNum};
      }
    }

    /** render: the colour of every lit light, after which the notes and
        fret presses of the frame are cleared. Sending the lights over the
        network and drawing them are not modelled. */
    method Render(glow: Glow) returns (pix: map<int, Pixel>)
      requires Valid()
      modifies this
      ensures pix == Lit(coords, |coords|, laneAssignments, old(notes), old(fretPressed), glow)
      ensures notes == [] && fretPressed == {}
    {
      pix := map[];
      for i := 0 to |coords|
        invariant pix == Lit(coords, i, laneAssignments, notes, fretPressed, glow)
      {
        var idNum := coords[i].ledId;
        var bucket := laneAssignments[idNum];
        var lightBright := glow(notes, bucket);
        if lightBright > PixBrightnessThreshold {
          pix := pix[idNum := LaneGlow(bucket.laneNum, lightBright)];
        } else if bucket.ratio >= TargetRatio {
          pix := pix[idNum := Solid(if bucket.laneNum in fretPressed then ColorsPressed[bucket.laneNum] else Grey)];
        }
      }
      notes := [];
      fretPressed := {};
    }
  }

  /** get_lane_assignments: the loop over the coordinates. */
  method GetLaneAssignments(coords: seq<Coord3d>, anchors: seq<Coord3d>, top: Coord3d, maxZ: int) returns (a: map<int, Bucket>)
    requires maxZ != 0
    ensures a == Assignments(coords, |coords|, anchors, top, maxZ)
  {
    a := map[];
    for i := 0 to |coords|
      invariant a == Assignments(coords, i, anchors, top, maxZ)
    {
      var c := coords[i];
      var lane := FindLane(anchors, top, c);
      a := a[c.ledId := Bucket(lane, Ratio(c.z, maxZ))];
    }
  }

  /** The lights lit by the first n coordinates. */
  function Lit(coords: seq<Coord3d>, n: nat, buckets: map<int, Bucket>, notes: seq<Note>, pressed: set<int>, glow: Glow): map<int, Pixel>
    requires n <= |coords|
    requires forall i | 0 <= i < |coords| :: coords[i].ledId in buckets
    requires forall k | k in buckets :: 0 <= buckets[k].laneNum < LaneCount
  {
    if n == 0 then map[]
    else
      var id := coords[n - 1].ledId;
      var p := PixelFor(buckets[id], glow(notes, buckets[id]), pressed);
      var front := Lit(coords, n - 1, buckets, notes, pressed, glow);
      if p.Some? then front[id := p.value] else front
  }

  /** Only lights of the tree are lit, and with ids distinct every light in
      the target zone is lit, in its lane's pressed colour or grey when no
      note is near it. */
  lemma {:induction false} LitSpec(coords: seq<Coord3d>, n: nat, buckets: map<int, Bucket>, notes: seq<Note>, pressed: set<int>, glow: Glow)
    requires n <= |coords|
    requires forall i | 0 <= i < |coords| :: coords[i].ledId in buckets
    requires forall k | k in buckets :: 0 <= buckets[k].laneNum < LaneCount
    requires forall i, j | 0 <= i < j < |coords| :: coords[i].ledId != coords[j].ledId
    ensures var lit := Lit(coords, n, buckets, notes, pressed, glow);
      && (forall k | k in lit :: exists i | 0 <= i < n :: coords[i].ledId == k)
      && (forall i | 0 <= i < n ::
            var b := buckets[coords[i].ledId];
            (coords[i].ledId in lit <==> PixelFor(b, glow(notes, b), pressed).Some?)
            && (coords[i].ledId in lit ==> lit[coords[i].ledId] == PixelFor(b, glow(notes, b), pressed).value))
      && (forall i | 0 <= i < n ::
            var b := buckets[coords[i].ledId];
            b.ratio >= TargetRatio && glow(notes, b) <= PixBrightnessThreshold ==>
              coords[i].ledId in lit && lit[coords[i].ledId].Solid?
              && lit[coords[i].ledId].rgb == (if b.laneNum in pressed then ColorsPressed[b.laneNum] else Grey))
  {
    if n > 0 {
      LitSpec(coords, n - 1, buckets, notes, pressed, glow);
    }
  }
}
