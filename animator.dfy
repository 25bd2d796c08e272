/** code/utils/animator.py: an animation built from a list of transforms.
    Each frame, every light starts dark at its coordinate, the transforms
    run over (coordinate, colour) in the order they were added, and the
    light gets the final colour; after all lights are set the frame is
    shown. */
module Animator {
  import opened Coords
  import opened Colors
  import opened Animation

  /** The function a LocationTransform wraps: frame number and coordinate
      to a new coordinate. */
  type LocationFn = (int, Coord3d) -> Coord3d
  /** The function a ColorTransform wraps: frame number, coordinate and
      colour to a new colour. */
  type ColorFn = (int, Coord3d, Color) -> Color

  datatype Transform = LocationTransform(moveTo: LocationFn) | ColorTransform(paint: ColorFn)

  /** transform(frame_num, coord, color) of either kind: a ColorTransform
      keeps the coordinate and a LocationTransform keeps the colour. */
  function Apply(t: Transform, frame: int, coord: Coord3d, color: Color): (r: (Coord3d, Color))
    ensures t.ColorTransform? ==> r.0 == coord && r.1 == t.paint(frame, coord, color)
    ensures t.LocationTransform? ==> r.1 == color && r.0 == t.moveTo(frame, coord)
  {
    match t
    case LocationTransform(moveTo) => (moveTo(frame, coord), color)
    case ColorTransform(paint) => (coord, paint(frame, coord, color))
  }

  /** The first n transforms run in order over (coord, LED_OFF). */
  function Run(ts: seq<Transform>, n: nat, frame: int, coord: Coord3d): (Coord3d, Color)
    requires n <= |ts|
  {
    if n == 0 then (coord, LedOff)
    else
      var (c, color) := Run(ts, n - 1, frame, coord);
      Apply(ts[n - 1], frame, c, color)
  }

  /** The colour a light at `coord` gets in `frame`. */
  function LedColor(ts: seq<Transform>, frame: int, coord: Coord3d): Color
  {
    Run(ts, |ts|, frame, coord).1
  }

  /** The loop over the transforms inside animate. */
  method ApplyAll(ts: seq<Transform>, frame: int, coord: Coord3d) returns (c: Coord3d, color: Color)
    ensures (c, color) == Run(ts, |ts|, frame, coord)
    ensures color == LedColor(ts, frame, coord)
  {
    color := LedOff;
    c := coord;
    for i := 0 to |ts|
      invariant (c, color) == Run(ts, i, frame, coord)
    {
      c, color := Apply(ts[i], frame, c, color).0, Apply(ts[i], frame, c, color).1;
    }
  }

  /** Transforms added later do not change what the earlier ones compute. */
  lemma {:induction false} RunPrefix(ts: seq<Transform>, more: seq<Transform>, n: nat, frame: int, coord: Coord3d)
    requires n <= |ts|
    ensures Run(ts + more, n, frame, coord) == Run(ts, n, frame, coord)
  {
    if n > 0 {
      RunPrefix(ts, more, n - 1, frame, coord);
      assert (ts + more)[n - 1] == ts[n - 1];
    }
  }

  /** Adding a transform applies it after all the others. */
  lemma AppendedRunsLast(ts: seq<Transform>, t: Transform, frame: int, coord: Coord3d)
    ensures var (c, color) := Run(ts, |ts|, frame, coord);
      Run(ts + [t], |ts| + 1, frame, coord) == Apply(t, frame, c, color)
  {
    RunPrefix(ts, [t], |ts|, frame, coord);
    assert (ts + [t])[|ts|] == t;
  }

  /** With no transforms every light is off. */
  lemma NoTransformsAllOff(frame: int, coord: Coord3d)
    ensures LedColor([], frame, coord) == LedOff
  {
  }

  predicate OnlyColors(ts: seq<Transform>)
  {
    forall i | 0 <= i < |ts| :: ts[i].ColorTransform?
  }

  predicate OnlyLocations(ts: seq<Transform>)
  {
    forall i | 0 <= i < |ts| :: ts[i].LocationTransform?
  }

  /** Colour transforms alone never move the coordinate, and location
      transforms alone leave every light off. */
  lemma {:induction false} KindsDoNotMix(ts: seq<Transform>, n: nat, frame: int, coord: Coord3d)
    requires n <= |ts|
    ensures OnlyColors(ts) ==> Run(ts, n, frame, coord).0 == coord
    ensures OnlyLocations(ts) ==> Run(ts, n, frame, coord).1 == LedOff
  {
    if n > 0 {
      KindsDoNotMix(ts, n - 1, frame, coord);
    }
  }

  /** The pixels after the first n lights of one frame are set. */
  function Paint(base: map<int, Color>, ts: seq<Transform>, items: seq<(int, Coord3d)>, n: nat, frame: int): map<int, Color>
    requires n <= |items|
  {
    if n == 0 then base
    else Paint(base, ts, items, n - 1, frame)[items[n - 1].0 := LedColor(ts, frame, items[n - 1].1)]
  }

  /** The pixels after the frames 0 .. n - 1. */
  function Painted(base: map<int, Color>, ts: seq<Transform>, items: seq<(int, Coord3d)>, n: nat): map<int, Color>
  {
    if n == 0 then base
    else Paint(Painted(base, ts, items, n - 1), ts, items, |items|, n - 1)
  }

  /** The snapshots shown by the frames 0 .. n - 1, one per frame. */
  function Snapshots(base: map<int, Color>, ts: seq<Transform>, items: seq<(int, Coord3d)>, n: nat): (s: seq<map<int, Color>>)
    ensures |s| == n
  {
    if n == 0 then [] else Snapshots(base, ts, items, n - 1) + [Painted(base, ts, items, n)]
  }

  /** Ids of a dict's items are distinct. */
  predicate DistinctIds(items: seq<(int, Coord3d)>)
  {
    forall i, j | 0 <= i < j < |items| :: items[i].0 != items[j].0
  }

  /** After a frame's lights are set, every light of the coordinates has
      its own colour for that frame, and no other entry changes. */
  lemma {:induction false} PaintSpec(base: map<int, Color>, ts: seq<Transform>, items: seq<(int, Coord3d)>, n: nat, frame: int)
    requires n <= |items| && DistinctIds(items)
    ensures forall i | 0 <= i < n ::
      items[i].0 in Paint(base, ts, items, n, frame) && Paint(base, ts, items, n, frame)[items[i].0] == LedColor(ts, frame, items[i].1)
    ensures forall k | k in base && (forall i | 0 <= i < n :: items[i].0 != k) ::
      k in Paint(base, ts, items, n, frame) && Paint(base, ts, items, n, frame)[k] == base[k]
  {
    if n > 0 {
      PaintSpec(base, ts, items, n - 1, frame);
    }
  }

  /** Frame f's snapshot shows every light in the colour its transforms
      give it in frame f. */
  lemma SnapshotColors(base: map<int, Color>, ts: seq<Transform>, items: seq<(int, Coord3d)>, n: nat, f: nat, i: nat)
    requires DistinctIds(items) && f < n && i < |items|
    ensures items[i].0 in Snapshots(base, ts, items, n)[f]
    ensures Snapshots(base, ts, items, n)[f][items[i].0] == LedColor(ts, f, items[i].1)
  {
    SnapshotAt(base, ts, items, n, f);
    PaintSpec(Painted(base, ts, items, f), ts, items, |items|, f);
  }

  lemma {:induction false} SnapshotAt(base: map<int, Color>, ts: seq<Transform>, items: seq<(int, Coord3d)>, n: nat, f: nat)
    requires f < n
    ensures Snapshots(base, ts, items, n)[f] == Painted(base, ts, items, f + 1)
  {
    if f < n - 1 {
      SnapshotAt(base, ts, items, n - 1, f);
    }
  }

  class Animator {
    const strip: StripLogger
    var transforms: seq<Transform>
    /** The frame count; -1 until `until` is called. */
    var frames: int

    constructor (strip: StripLogger)
      ensures this.strip == strip && transforms == [] && frames == -1
    {
      this.strip := strip;
      transforms := [];
      frames := -1;
    }

    /** transform_location: appends and returns the same animator. */
    method TransformLocation(t: LocationFn) returns (self: Animator)
      modifies this
      ensures self == this
      ensures transforms == old(transforms) + [LocationTransform(t)] && frames == old(frames)
    {
      transforms := transforms + [LocationTransform(t)];
      self := this;
    }

    /** transform_color: appends and returns the same animator. */
    method TransformColor(t: ColorFn) returns (self: Animator)
      modifies this
      ensures self == this
      ensures transforms == old(transforms) + [ColorTransform(t)] && frames == old(frames)
    {
      transforms := transforms + [ColorTransform(t)];
      self := this;
    }

    /** until: sets the frame count and returns the same animator. */
    method Until(frames: int) returns (self: Animator)
      modifies this
      ensures self == this
      ensures this.frames == frames && transforms == old(transforms)
    {
      this.frames := frames;
      self := this;
    }

    /** animate(coordinates), with the dict's items in its order. The
        assertion on the frame count is the `ok` result: false, with
        nothing drawn, when `until` was never called. Otherwise show is
        called once per frame, after all lights are set. */
    method Animate(items: seq<(int, Coord3d)>) returns (ok: bool)
      modifies strip
      ensures ok <==> frames >= 0
      ensures !ok ==> strip.pixels == old(strip.pixels) && strip.frames == old(strip.frames)
      ensures ok ==> strip.frames == old(strip.frames) + Snapshots(old(strip.pixels), transforms, items, frames)
      ensures ok ==> strip.pixels == Painted(old(strip.pixels), transforms, items, frames)
    {
      if frames < 0 {
        return false;
      }
      for frame := 0 to frames
        invariant strip.frames == old(strip.frames) + Snapshots(old(strip.pixels), transforms, items, frame)
        invariant strip.pixels == Painted(old(strip.pixels), transforms, items, frame)
      {
        ghost var start := strip.pixels;
        for i := 0 to |items|
          invariant strip.pixels == Paint(start, transforms, items, i, frame)
          invariant strip.frames == old(strip.frames) + Snapshots(old(strip.pixels), transforms, items, frame)
        {
          var ledId := items[i].0;
          var c, color := ApplyAll(transforms, frame, items[i].1);
          strip.SetPixelColor(ledId, color);
        }
        strip.Show();
      }
      ok := true;
    }
  }
}
