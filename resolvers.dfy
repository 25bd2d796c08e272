/** The two resolving passes of code/s3_coordinate_processing.py:
    process_90_degrees reads x and y off the photographs taken square to
    the tree, and process_45_degrees retries the lights it left unresolved
    with the diagonal photographs, rotating the answer back into the
    square frame. */
module Resolvers {
  import opened Text
  import opened Coords
  import opened Reconstruction

  /** How far a detection is from the vertical centre line of its photograph. */
  function CentreOffset(s: Snap): nat
  {
    if s.x >= ImageCentreX then s.x - ImageCentreX else ImageCentreX - s.x
  }

  /** middle_z: the shot nearest the centre line, the first one on a tie.
      Its y is the light's height. */
  function MiddleShot(shots: seq<Snap>): (m: Snap)
    requires |shots| > 0
    ensures m in shots
    ensures forall s | s in shots :: CentreOffset(m) <= CentreOffset(s)
    ensures exists i | 0 <= i < |shots| :: shots[i] == m && forall j | 0 <= j < i :: CentreOffset(shots[j]) > CentreOffset(m)
  {
    if |shots| == 1 then shots[0]
    else
      var rest := MiddleShot(shots[1..]);
      if CentreOffset(shots[0]) <= CentreOffset(rest) then shots[0]
      else
        assert forall s | s in shots[1..] :: s in shots;
        var i :| 0 <= i < |shots[1..]| && shots[1..][i] == rest && forall j | 0 <= j < i :: CentreOffset(shots[1..][j]) > CentreOffset(rest);
        assert shots[i + 1] == rest;
        rest
  }

  /** The shots with a usable position: `s.x != 0 and s.y != 0`. */
  function Usable(shots: seq<Snap>): (r: seq<Snap>)
    ensures forall s | s in r :: s in shots && s.x != 0 && s.y != 0
    ensures forall s | s in shots && s.x != 0 && s.y != 0 :: s in r
  {
    if shots == [] then []
    else (if shots[0].x != 0 && shots[0].y != 0 then [shots[0]] else []) + Usable(shots[1..])
  }

  /** The shots taken from one of two opposite camera angles, in order. */
  function Facing(shots: seq<Snap>, direct: int, reflected: int): (r: seq<Snap>)
    ensures forall s | s in r :: s in shots && (s.angle == direct || s.angle == reflected)
  {
    if shots == [] then []
    else (if shots[0].angle == direct || shots[0].angle == reflected then [shots[0]] else []) + Facing(shots[1..], direct, reflected)
  }

  /** One axis read from the first shot facing along it: the shot's x as
      seen from `direct`, mirrored across the photograph from `reflected`,
      0 when there is no such shot. */
  function AxisValue(shots: seq<Snap>, direct: int, reflected: int): int
  {
    var facing := Facing(shots, direct, reflected);
    if facing == [] then 0
    else if facing[0].angle == direct then facing[0].x
    else ImageWidth - facing[0].x
  }

  /** No shot faces along the axis: nothing is selected. */
  lemma {:induction false} FacingNone(shots: seq<Snap>, direct: int, reflected: int)
    requires forall s | s in shots :: s.angle != direct && s.angle != reflected
    ensures Facing(shots, direct, reflected) == []
  {
    if shots != [] {
      assert forall s | s in shots[1..] :: s in shots;
      FacingNone(shots[1..], direct, reflected);
    }
  }

  /** The earliest shot facing along the axis is selected first. */
  lemma {:induction false} FacingFirst(shots: seq<Snap>, direct: int, reflected: int, i: int)
    requires 0 <= i < |shots| && (shots[i].angle == direct || shots[i].angle == reflected)
    requires forall j | 0 <= j < i :: shots[j].angle != direct && shots[j].angle != reflected
    ensures Facing(shots, direct, reflected) != [] && Facing(shots, direct, reflected)[0] == shots[i]
  {
    if i > 0 {
      var rest := shots[1..];
      assert rest[i - 1] == shots[i];
      forall j | 0 <= j < i - 1
        ensures rest[j].angle != direct && rest[j].angle != reflected
      {
        assert rest[j] == shots[j + 1];
      }
      FacingFirst(rest, direct, reflected, i - 1);
    }
  }

  /** AxisValue is decided by the earliest shot facing along the axis, and
      is 0 when no shot does. */
  lemma AxisValueFirst(shots: seq<Snap>, direct: int, reflected: int, i: int)
    requires 0 <= i < |shots| && (shots[i].angle == direct || shots[i].angle == reflected)
    requires forall j | 0 <= j < i :: shots[j].angle != direct && shots[j].angle != reflected
    ensures AxisValue(shots, direct, reflected) == if shots[i].angle == direct then shots[i].x else ImageWidth - shots[i].x
  {
    FacingFirst(shots, direct, reflected, i);
  }

  lemma AxisValueNone(shots: seq<Snap>, direct: int, reflected: int)
    requires forall s | s in shots :: s.angle != direct && s.angle != reflected
    ensures AxisValue(shots, direct, reflected) == 0
  {
    FacingNone(shots, direct, reflected);
  }

  /** The square pass's reading of one light from all its shots. */
  function OrthogonalCoord(id: int, shots: seq<Snap>): (c: Coord3d)
    requires |shots| > 0
    ensures c.ledId == id
  {
    var usable := Usable(shots);
    Coord3d(id, AxisValue(usable, 0, 180), AxisValue(usable, 270, 90), MiddleShot(shots).y)
  }

  /** The square reading's height is the y of a shot nearest the centre line
      of its photograph. */
  lemma OrthogonalHeight(id: int, shots: seq<Snap>)
    requires |shots| > 0
    ensures exists s | s in shots ::
      && OrthogonalCoord(id, shots).z == s.y
      && forall t | t in shots :: CentreOffset(s) <= CentreOffset(t)
  {
    var m := MiddleShot(shots);
    assert OrthogonalCoord(id, shots).z == m.y;
  }

  /** A light is unresolved while either horizontal axis is still 0. */
  predicate Unresolved(c: Coord3d)
  {
    c.x == 0 || c.y == 0
  }

  predicate NonEmptyGroups(shots: map<int, seq<Snap>>)
  {
    forall k | k in shots :: |shots[k]| > 0
  }

  /** A turn of the horizontal plane about the centre of the photographs. */
  type Rotation = (real, real) -> (real, real)

  /** rotate: turn about the vertical axis in the centred frame, then
      truncate each axis back to an integer. */
  function Rotate(c: Coord3d, rotation: Rotation): (r: Coord3d)
    ensures r.ledId == c.ledId && r.z == c.z
  {
    var centred := NormalizeToCenter((c.x as real, c.y as real, c.z as real));
    var turned := rotation(centred.0, centred.1);
    var back := DenormalizeFromCenter((turned.0, turned.1, centred.2));
    TruncOfInteger(c.z);
    Coord3d(c.ledId, Trunc(back.0), Trunc(back.1), Trunc(back.2))
  }

  /** Rotating by nothing leaves a light where it is: the centring and the
      truncation lose nothing on integer positions. */
  lemma RotateIdentity(c: Coord3d, rotation: Rotation)
    requires forall x: real, y: real :: rotation(x, y) == (x, y)
    ensures Rotate(c, rotation) == c
  {
    var centred := NormalizeToCenter((c.x as real, c.y as real, c.z as real));
    CenterRoundTrip((c.x as real, c.y as real, c.z as real));
    assert rotation(centred.0, centred.1) == (centred.0, centred.1);
    TruncOfInteger(c.x);
    TruncOfInteger(c.y);
  }

  /** Both diagonal axes were found. */
  predicate DiagonalResolved(filtered: seq<Snap>)
  {
    AxisValue(filtered, 45, 225) != 0 && AxisValue(filtered, 315, 135) != 0
  }

  /** The diagonal pass's reading of one unresolved light: rotate the
      diagonal reading, zero an axis that was not found (x first), then
      keep whichever axis the square pass had already found. */
  function DiagonalCoord(id: int, stored: Coord3d, filtered: seq<Snap>, all: seq<Snap>, rotation: Rotation): (r: Coord3d)
    requires |all| > 0
    ensures r.ledId == id && r.z == MiddleShot(all).y
    ensures stored.x != 0 ==> r.x == stored.x
    ensures stored.y != 0 ==> r.y == stored.y
    ensures stored.x == 0 && AxisValue(filtered, 45, 225) == 0 ==> r.x == 0
    ensures stored.y == 0 && AxisValue(filtered, 45, 225) != 0 && AxisValue(filtered, 315, 135) == 0 ==> r.y == 0
  {
    var z := MiddleShot(all).y;
    var y := AxisValue(filtered, 315, 135);
    var x := AxisValue(filtered, 45, 225);
    var turned := Rotate(Coord3d(id, x, y, z), rotation);
    var cleared := if x == 0 then WithX(turned, 0) else if y == 0 then WithY(turned, 0) else turned;
    var keptX := if stored.x != 0 then WithX(cleared, stored.x) else cleared;
    if stored.y != 0 then WithY(keptX, stored.y) else keptX
  }

  /** When neither diagonal axis was found only x is zeroed: y keeps the
      rotated value of the point (0, 0). */
  lemma DiagonalBothMissingKeepsRotatedY(id: int, stored: Coord3d, filtered: seq<Snap>, all: seq<Snap>, rotation: Rotation)
    requires |all| > 0
    requires AxisValue(filtered, 45, 225) == 0 && AxisValue(filtered, 315, 135) == 0 && stored.y == 0
    ensures DiagonalCoord(id, stored, filtered, all, rotation).y == Rotate(Coord3d(id, 0, 0, MiddleShot(all).y), rotation).y
  {
  }

  predicate DiagonalReady(coords: map<int, Coord3d>, missing: map<int, seq<Snap>>, shots: map<int, seq<Snap>>)
  {
    forall k | k in missing :: k in coords && k in shots && |shots[k]| > 0
  }
}
