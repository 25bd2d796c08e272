/** code/utils/animation.py: the strip logger that records an animation
    frame by frame instead of driving the lights, the rows it writes to
    the animation file, the helpers the animations share, and the reader
    of a normalised coordinate file. The StripLogger of
    code/animation_utils.py and of animations/generate/animation_utils.py
    is the same class except that its rows always cover 500 lights; it is
    modelled by the second constructor. */
module Animation {
  import opened Wrappers
  import opened Text
  import opened Coords
  import opened Colors

  /** The number of lights on the tree. */
  const TreeLights := 500

  class StripLogger {
    /** The colour last set for each light. */
    var pixels: map<int, Color>
    /** The snapshots taken by show, oldest first. */
    var frames: seq<map<int, Color>>
    /** The number of lights each written row covers. */
    const rowWidth: nat

    /** LightStripLogger(coordinates): one light per coordinate. */
    constructor FromCoordinates(coordinates: map<int, Coord3d>)
      ensures pixels == map[] && frames == [] && rowWidth == |coordinates|
    {
      pixels := map[];
      frames := [];
      rowWidth := |coordinates|;
    }

    /** StripLogger(output_filename, pixel_count): the pixel_count argument
        is ignored and the rows always cover the 500 lights. */
    constructor WithFixedWidth(pixelCount: int)
      ensures pixels == map[] && frames == [] && rowWidth == TreeLights
    {
      pixels := map[];
      frames := [];
      rowWidth := TreeLights;
    }

    /** setPixelColor: overwrites this light's entry only. */
    method SetPixelColor(led: int, color: Color)
      modifies this
      ensures pixels == old(pixels)[led := color] && frames == old(frames)
    {
      pixels := pixels[led := color];
    }

    /** show: appends a copy of the pixels. The copy is a value, so later
        changes to the pixels leave it alone. */
    method Show()
      modifies this
      ensures frames == old(frames) + [pixels] && pixels == old(pixels)
    {
      frames := frames + [pixels];
    }

    /** The rows of write_to_file, one per frame in order. */
    method WriteRows() returns (rows: seq<seq<int>>)
      ensures |rows| == |frames|
      ensures forall i | 0 <= i < |frames| :: rows[i] == Row(i, frames[i], rowWidth)
    {
      rows := [];
      for frameIndex := 0 to |frames|
        invariant |rows| == frameIndex
        invariant forall i | 0 <= i < frameIndex :: rows[i] == Row(i, frames[i], rowWidth)
      {
        var frame := frames[frameIndex];
        var data := [frameIndex];
        for ledId := 0 to rowWidth
          invariant data == [frameIndex] + Cells(frame, ledId)
        {
          if ledId in frame {
            data := data + RgbList(frame[ledId]);
          } else {
            data := data + [0, 0, 0];
          }
        }
        rows := rows + [data];
      }
    }
  }

  /** The three values written for one light: its colour, or 0, 0, 0 when
      it was never set. */
  function Cell(frame: map<int, Color>, led: int): (cell: seq<int>)
    ensures |cell| == 3
  {
    if led in frame then RgbList(frame[led]) else [0, 0, 0]
  }

  /** The cells of the lights 0 .. n - 1. */
  function Cells(frame: map<int, Color>, n: nat): seq<int>
  {
    if n == 0 then [] else Cells(frame, n - 1) + Cell(frame, n - 1)
  }

  /** A row: the frame index, then three values per light. */
  function Row(index: int, frame: map<int, Color>, count: nat): seq<int>
  {
    [index] + Cells(frame, count)
  }

  lemma {:induction false} CellsShape(frame: map<int, Color>, n: nat)
    ensures |Cells(frame, n)| == 3 * n
    ensures forall led | 0 <= led < n :: Cells(frame, n)[3 * led .. 3 * led + 3] == Cell(frame, led)
  {
    if n > 0 {
      CellsShape(frame, n - 1);
      var front := Cells(frame, n - 1);
      forall led | 0 <= led < n
        ensures Cells(frame, n)[3 * led .. 3 * led + 3] == Cell(frame, led)
      {
        if led < n - 1 {
          assert Cells(frame, n)[3 * led .. 3 * led + 3] == front[3 * led .. 3 * led + 3];
        }
      }
    }
  }

  /** A row has 1 + 3 * count fields: the frame index, then each light's
      colour in id order, zeros for a light never set. */
  lemma RowShape(index: int, frame: map<int, Color>, count: nat)
    ensures |Row(index, frame, count)| == 1 + 3 * count && Row(index, frame, count)[0] == index
    ensures forall led | 0 <= led < count ::
      Row(index, frame, count)[1 + 3 * led .. 4 + 3 * led] == Cell(frame, led)
  {
    CellsShape(frame, count);
    var row := Row(index, frame, count);
    var cells := Cells(frame, count);
    assert row[1..] == cells;
    forall led | 0 <= led < count
      ensures row[1 + 3 * led .. 4 + 3 * led] == Cell(frame, led)
    {
      assert row[1 + 3 * led .. 4 + 3 * led] == row[1..][3 * led .. 3 * led + 3];
    }
  }

  /** is_back_of_tree(coord, threshold=-100) */
  predicate IsBackOfTree(c: Coord3d, threshold: int := -100)
  {
    c.y < threshold
  }

  lemma BackOfTreeDefault(c: Coord3d)
    ensures IsBackOfTree(c) <==> c.y < -100
    ensures IsBackOfTree(c, c.y + 1) && !IsBackOfTree(c, c.y)
  {
  }

  /** fill(strip, color): sets the lights 0 .. numPixels - 1 and does not
      call show. The count is the strip's numPixels(). */
  method Fill(strip: StripLogger, numPixels: int, color: Color)
    modifies strip
    ensures forall i | 0 <= i < numPixels :: i in strip.pixels && strip.pixels[i] == color
    ensures forall i | i < 0 || i >= numPixels :: (i in strip.pixels <==> i in old(strip.pixels))
    ensures forall i | (i < 0 || i >= numPixels) && i in old(strip.pixels) :: strip.pixels[i] == old(strip.pixels)[i]
    ensures strip.frames == old(strip.frames)
  {
    for i := 0 to if numPixels < 0 then 0 else numPixels
      invariant forall j | 0 <= j < i :: j in strip.pixels && strip.pixels[j] == color
      invariant forall j | j < 0 || j >= i :: (j in strip.pixels <==> j in old(strip.pixels))
      invariant forall j | (j < 0 || j >= i) && j in old(strip.pixels) :: strip.pixels[j] == old(strip.pixels)[j]
      invariant strip.frames == old(strip.frames)
    {
      strip.SetPixelColor(i, color);
    }
  }

  /** `x, y, z = list(map(float, xyz.split(",")))`: exactly three plain
      decimal fields as ParseDecimal reads them, or failure. */
  function ParseTriple(line: string): Option<(real, real, real)>
  {
    var parts := Split(line, ',');
    if |parts| != 3 then None
    else
      match (ParseDecimal(parts[0]), ParseDecimal(parts[1]), ParseDecimal(parts[2]))
      case (Some(x), Some(y), Some(z)) => Some((x, y, z))
      case _ => None
  }

  /** scale(val) = int(val * 500). */
  function Scale(v: real): int
  {
    Trunc(v * 500.0)
  }

  /** The coordinate of the light on line `id`. */
  function ScaledCoord(id: int, t: (real, real, real)): (c: Coord3d)
    ensures c.ledId == id
  {
    Coord3d(id, Scale(t.0), Scale(t.1), Scale(t.2))
  }

  /** One line of a coordinate file, after line.rstrip(). */
  function ReadLine(line: string): Option<(real, real, real)>
  {
    ParseTriple(StripRight(line))
  }

  /** How one line is read; the reader uses ReadLine. */
  type TripleReader = string -> Option<(real, real, real)>

  /** The loop of read_coordinates: light i is read from line i; None where
      a line does not hold three numbers. The rest of the line's text is
      only checked by a pattern whose failure is logged. */
  method ReadScaled(lines: seq<string>, read: TripleReader) returns (r: Option<map<int, Coord3d>>)
    ensures r.None? <==> exists i | 0 <= i < |lines| :: read(lines[i]).None?
    ensures r.Some? ==> forall k :: k in r.value <==> 0 <= k < |lines|
    ensures r.Some? ==> forall i | 0 <= i < |lines| :: read(lines[i]).Some? && r.value[i] == ScaledCoord(i, read(lines[i]).value)
  {
    var coordinates: map<int, Coord3d> := map[];
    for ledId := 0 to |lines|
      invariant forall k :: k in coordinates <==> 0 <= k < ledId
      invariant forall i | 0 <= i < ledId :: read(lines[i]).Some? && coordinates[i] == ScaledCoord(i, read(lines[i]).value)
    {
      var xyz := read(lines[ledId]);
      if xyz.None? {
        return None;
      }
      coordinates := coordinates[ledId := ScaledCoord(ledId, xyz.value)];
    }
    r := Some(coordinates);
  }

  /** read_coordinates: every line is a light, numbered from 0. The
      min/max summary it logs at the end raises ValueError on an empty
      file. */
  method ReadCoordinates(lines: seq<string>) returns (r: Option<map<int, Coord3d>>)
    ensures r.Some? <==> lines != [] && forall i | 0 <= i < |lines| :: ReadLine(lines[i]).Some?
    ensures r.Some? ==> forall k :: k in r.value <==> 0 <= k < |lines|
    ensures r.Some? ==> forall i | 0 <= i < |lines| :: r.value[i] == ScaledCoord(i, ReadLine(lines[i]).value)
  {
    r := ReadScaled(lines, ReadLine);
    if lines == [] {
      r := None;
    }
  }
}
