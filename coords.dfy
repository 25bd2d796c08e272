/** The coordinate records of code/utils/coords.py. The pipeline's own
    `Coord` (code/s3_coordinate_processing.py) and the one in
    code/animation_utils.py have the same fields and the same with_* updates,
    so all three are this one Coord3d. */
module Coords {
  import opened Wrappers

  datatype Coord3d = Coord3d(ledId: int, x: int, y: int, z: int)

  function WithX(c: Coord3d, newX: int): (r: Coord3d)
    ensures r.x == newX && r.ledId == c.ledId && r.y == c.y && r.z == c.z
  {
    Coord3d(c.ledId, newX, c.y, c.z)
  }

  function WithY(c: Coord3d, newY: int): (r: Coord3d)
    ensures r.y == newY && r.ledId == c.ledId && r.x == c.x && r.z == c.z
  {
    Coord3d(c.ledId, c.x, newY, c.z)
  }

  function WithZ(c: Coord3d, newZ: int): (r: Coord3d)
    ensures r.z == newZ && r.ledId == c.ledId && r.x == c.x && r.y == c.y
  {
    Coord3d(c.ledId, c.x, c.y, newZ)
  }

  /** The square of `distance`: the square root is monotone, so every
      comparison the code makes on distances is made here on squares. */
  function Distance2(a: Coord3d, b: Coord3d): (d: int)
    ensures d >= 0
    ensures d == 0 <==> (a.x == b.x && a.y == b.y && a.z == b.z)
  {
    var dx := a.x - b.x;
    var dy := a.y - b.y;
    var dz := a.z - b.z;
    dx * dx + dy * dy + dz * dz
  }

  lemma DistanceSymmetric(a: Coord3d, b: Coord3d)
    ensures Distance2(a, b) == Distance2(b, a)
  {
    assert (a.x - b.x) * (a.x - b.x) == (b.x - a.x) * (b.x - a.x);
    assert (a.y - b.y) * (a.y - b.y) == (b.y - a.y) * (b.y - a.y);
    assert (a.z - b.z) * (a.z - b.z) == (b.z - a.z) * (b.z - a.z);
  }

  lemma DistanceIgnoresId(a: Coord3d, b: Coord3d, id: int)
    ensures Distance2(Coord3d(id, a.x, a.y, a.z), b) == Distance2(a, b)
  {
  }

  /** c[item] on [led_id, x, y, z], with Python's negative indices; any
      other index raises IndexError. */
  function GetItem(c: Coord3d, item: int): (r: Option<int>)
    ensures r.Some? <==> -4 <= item < 4
    ensures item == 0 || item == -4 ==> r == Some(c.ledId)
    ensures item == 1 || item == -3 ==> r == Some(c.x)
    ensures item == 2 || item == -2 ==> r == Some(c.y)
    ensures item == 3 || item == -1 ==> r == Some(c.z)
  {
    var fields := [c.ledId, c.x, c.y, c.z];
    if 0 <= item < 4 then Some(fields[item])
    else if -4 <= item < 0 then Some(fields[item + 4])
    else None
  }

  /** c[1:], every field but the id. */
  function Position(c: Coord3d): (r: seq<int>)
    ensures |r| == 3
    ensures forall i | 0 <= i < 3 :: Some(r[i]) == GetItem(c, i + 1)
  {
    [c.x, c.y, c.z]
  }

  /** A detection of one light in one photograph. */
  datatype Coord2d = Coord2d(ledId: int, angle: int, x: int, y: int, b: int)

  /** The dictionary json.loads yields for a record of integer fields. The
      JSON text itself is not modelled. */
  type Attrs = map<string, int>

  function Coord3dToJson(c: Coord3d): Attrs
  {
    map["led_id" := c.ledId, "x" := c.x, "y" := c.y, "z" := c.z]
  }

  function Coord2dToJson(c: Coord2d): Attrs
  {
    map["led_id" := c.ledId, "angle" := c.angle, "x" := c.x, "y" := c.y, "b" := c.b]
  }

  /** Coord2d(**attrs): exactly the five field names, or TypeError. */
  function Coord2dFromJson(attrs: Attrs): (r: Option<Coord2d>)
    ensures r.Some? <==> attrs.Keys == {"led_id", "angle", "x", "y", "b"}
  {
    if attrs.Keys == {"led_id", "angle", "x", "y", "b"} then
      Some(Coord2d(attrs["led_id"], attrs["angle"], attrs["x"], attrs["y"], attrs["b"]))
    else None
  }

  lemma Coord2dRoundTrip(c: Coord2d)
    ensures Coord2dFromJson(Coord2dToJson(c)) == Some(c)
  {
    var attrs := Coord2dToJson(c);
    assert attrs.Keys == {"led_id", "angle", "x", "y", "b"};
  }

  /** Coord3d.from_json as written: it builds a Coord2d. */
  function Coord3dFromJson(attrs: Attrs): Option<Coord2d>
  {
    Coord2dFromJson(attrs)
  }

  /** A Coord3d's own JSON never loads back: it has `z` and lacks `angle` and `b`. */
  lemma Coord3dFromJsonRejectsOwnJson(c: Coord3d)
    ensures Coord3dFromJson(Coord3dToJson(c)) == None
  {
    assert "z" in Coord3dToJson(c).Keys;
  }

  /** Coord3d.from_json as evidently intended: Coord3d(**attrs). */
  function Coord3dFromJsonIntended(attrs: Attrs): (r: Option<Coord3d>)
    ensures r.Some? <==> attrs.Keys == {"led_id", "x", "y", "z"}
  {
    if attrs.Keys == {"led_id", "x", "y", "z"} then
      Some(Coord3d(attrs["led_id"], attrs["x"], attrs["y"], attrs["z"]))
    else None
  }

  lemma Coord3dRoundTrip(c: Coord3d)
    ensures Coord3dFromJsonIntended(Coord3dToJson(c)) == Some(c)
  {
    assert Coord3dToJson(c).Keys == {"led_id", "x", "y", "z"};
  }
}
