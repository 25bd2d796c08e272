/** code/animation_utils.py: an earlier copy of the animation helpers. Its
    Coord is the record Coords.Coord3d with the same with_x/with_y/with_z,
    is_back_of_tree and fill are those of Animation, and its StripLogger is
    Animation.StripLogger with the 500-light rows. What differs is the
    coordinate reader, which drops a header line and has no summary at the
    end. */
module AnimationUtils {
  import opened Wrappers
  import opened Coords
  import opened Animation

  /** read_coordinates: the first line is a header; the rest are the lights
      0, 1, ... in order. An empty file gives an empty table. */
  method ReadCoordinates(lines: seq<string>) returns (r: Option<map<int, Coord3d>>)
    ensures r.Some? <==> forall i | 1 <= i < |lines| :: ReadLine(lines[i]).Some?
    ensures r.Some? ==> forall k :: k in r.value <==> 0 <= k < |lines| - 1
    ensures r.Some? ==> forall i | 1 <= i < |lines| :: r.value[i - 1] == ScaledCoord(i - 1, ReadLine(lines[i]).value)
  {
    var body := if lines == [] then [] else lines[1..];
    r := ReadScaled(body, ReadLine);
    if r.Some? {
      forall i | 1 <= i < |lines|
        ensures r.value[i - 1] == ScaledCoord(i - 1, ReadLine(lines[i]).value)
      {
        assert body[i - 1] == lines[i];
      }
    } else {
      var j :| 0 <= j < |body| && ReadLine(body[j]).None?;
      assert lines[j + 1] == body[j];
    }
  }
}
