/** animations/generate/animation_utils.py: the helpers of the scripts that
    generate animation files. Its colour blending is the one of
    code/utils/colors.py and its StripLogger is Animation.StripLogger with
    the 500-light rows; what differs is modelled here: the centring of a
    coordinate list, the back-of-tree test on image coordinates, a colour
    wheel that does not truncate its position, and a reader of
    "id,x,y,z" lines. */
module GenerateUtils {
  import opened Wrappers
  import opened Text
  import Colors
  import ScanReconstruction

  const ImageWidth := 1080

  /** normalize_to_center(v): x - 540 + 5, y - 540, z unchanged. */
  function NormalizeToCenter(v: seq<real>): (r: seq<real>)
    requires |v| >= 3
    ensures |r| == 3 && r[2] == v[2]
  {
    [v[0] - (ImageWidth / 2) as real + 5.0, v[1] - (ImageWidth / 2) as real, v[2]]
  }

  /** denormalize_from_center(v): x + 540 - 5, y + 540, z unchanged. */
  function DenormalizeFromCenter(v: seq<real>): (r: seq<real>)
    requires |v| >= 3
    ensures |r| == 3 && r[2] == v[2]
  {
    [v[0] + (ImageWidth / 2) as real - 5.0, v[1] + (ImageWidth / 2) as real, v[2]]
  }

  /** The two shifts undo each other in both orders, on the first three
      entries of the list. */
  lemma CenterRoundTrip(v: seq<real>)
    requires |v| >= 3
    ensures DenormalizeFromCenter(NormalizeToCenter(v)) == v[..3]
    ensures NormalizeToCenter(DenormalizeFromCenter(v)) == v[..3]
  {
  }

  /** The shift is the one of scan/coordinate_processing.py. */
  lemma SameCentreAsScan(v: seq<real>)
    requires |v| >= 3
    ensures var r := NormalizeToCenter(v);
      (r[0], r[1], r[2]) == ScanReconstruction.ScanToCenter((v[0], v[1], v[2]))
  {
  }

  /** is_back_of_tree(v): the image y below 400. */
  predicate IsBackOfTree(v: seq<real>)
    requires |v| >= 2
  {
    v[1] < 400.0
  }

  /** The test is strict: an image y of 400 is already the front. */
  lemma BackOfTreeBoundary(x: real, z: real)
    ensures IsBackOfTree([x, 399.0, z]) && !IsBackOfTree([x, 400.0, z])
  {
  }

  /** Colour components as the numbers the wheel computes, which need not
      be integers. */
  datatype Shade = Shade(r: real, g: real, b: real)

  /** wheel(pos) without int(): the three ramps over 0..85, 85..170 and
      170 on. */
  function Wheel(pos: real): (c: Shade)
    ensures c.r + c.g + c.b == 255.0
  {
    if pos < 85.0 then Shade(pos * 3.0, 255.0 - pos * 3.0, 0.0)
    else if pos < 170.0 then
      var p := pos - 85.0;
      Shade(255.0 - p * 3.0, 0.0, p * 3.0)
    else
      var p := pos - 170.0;
      Shade(0.0, p * 3.0, 255.0 - p * 3.0)
  }

  /** Between 0 and 255 every component stays in 0..255. */
  lemma WheelRange(pos: real)
    requires 0.0 <= pos <= 255.0
    ensures var c := Wheel(pos);
      0.0 <= c.r <= 255.0 && 0.0 <= c.g <= 255.0 && 0.0 <= c.b <= 255.0
  {
  }

  /** On whole positions it is the wheel of code/utils/colors.py. */
  lemma WheelAgreesOnIntegers(p: int)
    ensures var c := Colors.Wheel(p as real);
      Wheel(p as real) == Shade(c.r as real, c.g as real, c.b as real)
  {
    TruncOfInteger(p);
  }

  /** One parsed line: `ledid, x, y, z = map(int, line.split(","))`. */
  datatype Entry = Entry(ledId: int, x: int, y: int, z: int)

  /** Exactly four integer fields, or ValueError. */
  function ParseEntry(line: string): Option<Entry>
  {
    var parts := Split(line, ',');
    if |parts| != 4 then None
    else
      match (ParseInt(parts[0]), ParseInt(parts[1]), ParseInt(parts[2]), ParseInt(parts[3]))
      case (Some(id), Some(x), Some(y), Some(z)) => Some(Entry(id, x, y, z))
      case _ => None
  }

  /** One line of the file, after line.rstrip(). */
  function ReadEntry(line: string): Option<Entry>
  {
    ParseEntry(StripRight(line))
  }

  type EntryReader = string -> Option<Entry>

  /** The table after the first n lines, each entry replacing any earlier
      one with the same id. */
  function IdTable(lines: seq<string>, n: nat, read: EntryReader): map<int, (int, int, int)>
    requires n <= |lines| && forall i | 0 <= i < n :: read(lines[i]).Some?
  {
    if n == 0 then map[]
    else
      var e := read(lines[n - 1]).value;
      IdTable(lines, n - 1, read)[e.ledId := (e.x, e.y, e.z)]
  }

  /** The loop of read_coordinates over the lines after the header. */
  method ReadEntries(lines: seq<string>, read: EntryReader) returns (r: Option<map<int, (int, int, int)>>)
    ensures r.None? <==> exists i | 0 <= i < |lines| :: read(lines[i]).None?
    ensures r.Some? ==> r.value == IdTable(lines, |lines|, read)
  {
    var coordinates: map<int, (int, int, int)> := map[];
    for i := 0 to |lines|
      invariant forall j | 0 <= j < i :: read(lines[j]).Some?
      invariant coordinates == IdTable(lines, i, read)
    {
      var e := read(lines[i]);
      if e.None? {
        return None;
      }
      coordinates := coordinates[e.value.ledId := (e.value.x, e.value.y, e.value.z)];
    }
    r := Some(coordinates);
  }

  /** read_coordinates: the first line is a header; None where a line is
      not four integers. */
  method ReadCoordinates(lines: seq<string>) returns (r: Option<map<int, (int, int, int)>>)
    ensures var body := if lines == [] then [] else lines[1..];
      && (r.None? <==> exists i | 0 <= i < |body| :: ReadEntry(body[i]).None?)
      && (r.Some? ==> r.value == IdTable(body, |body|, ReadEntry))
  {
    var body := if lines == [] then [] else lines[1..];
    r := ReadEntries(body, ReadEntry);
  }

  /** The table holds exactly the ids that occur. */
  lemma {:induction false} IdTableSpec(lines: seq<string>, n: nat, read: EntryReader)
    requires n <= |lines| && forall i | 0 <= i < n :: read(lines[i]).Some?
    ensures forall k :: k in IdTable(lines, n, read) <==> exists i | 0 <= i < n :: read(lines[i]).value.ledId == k
  {
    if n > 0 {
      IdTableSpec(lines, n - 1, read);
      var last := read(lines[n - 1]).value;
      forall k
        ensures k in IdTable(lines, n, read) <==> exists i | 0 <= i < n :: read(lines[i]).value.ledId == k
      {
        if k in IdTable(lines, n, read) && k != last.ledId {
          assert k in IdTable(lines, n - 1, read);
        }
      }
    }
  }

  /** Each id maps to the last line that carries it. */
  lemma {:induction false} IdTableLastWins(lines: seq<string>, n: nat, read: EntryReader, i: nat)
    requires n <= |lines| && forall j | 0 <= j < n :: read(lines[j]).Some?
    requires i < n && forall j | i < j < n :: read(lines[j]).value.ledId != read(lines[i]).value.ledId
    ensures var e := read(lines[i]).value;
      e.ledId in IdTable(lines, n, read) && IdTable(lines, n, read)[e.ledId] == (e.x, e.y, e.z)
  {
    if i < n - 1 {
      IdTableLastWins(lines, n - 1, read, i);
    }
  }
}
