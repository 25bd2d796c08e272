/** The fixed-width reader shared by scan/coordinate_processing.py and
    coordinate_processing.py: each line of the scan file holds one
    detection, with the light id in columns 2-4, the camera angle in
    11-13, and the image x and y in 16-19 and 22-25. Detections without a
    position are dropped and the rest are grouped by light, in file
    order. A field that is not a number makes int() raise, which ends the
    program. */
module FixedWidth {
  import opened Wrappers
  import opened Text
  import opened Reconstruction

  /** One line after `line.rstrip()`, cut into its four fields; None where
      int() raises. */
  function ParseLine(line: string): Option<Snap>
  {
    var t := StripRight(line);
    var id := ParseInt(Slice(t, 2, 5));
    var angle := ParseInt(Slice(t, 11, 14));
    var x := ParseInt(Slice(t, 16, 20));
    var y := ParseInt(Slice(t, 22, 26));
    if id.Some? && angle.Some? && x.Some? && y.Some? then Some(Snap(id.value, angle.value, x.value, y.value))
    else None
  }

  /** `n` written with exactly `width` digits, zero-padded on the left. */
  function Padded(n: nat, width: nat): (ds: string)
    ensures |ds| == width && AllDigits(ds)
  {
    if width == 0 then "" else Padded(n / 10, width - 1) + [DigitChar(n % 10)]
  }

  lemma {:induction false} PaddedValue(n: nat, width: nat)
    requires n < Pow10(width)
    ensures DigitsValue(Padded(n, width)) == n
  {
    if width > 0 {
      assert n / 10 < Pow10(width - 1);
      PaddedValue(n / 10, width - 1);
      var ds := Padded(n, width);
      assert ds[..|ds| - 1] == Padded(n / 10, width - 1);
    }
  }

  lemma ParsePadded(n: nat, width: nat)
    requires width > 0 && n < Pow10(width)
    ensures ParseInt(Padded(n, width)) == Some(n)
  {
    PaddedValue(n, width);
    StripDigits(Padded(n, width));
  }

  /** A line whose four fields hold zero-padded numbers parses to those
      numbers, whatever the other characters of the line are. */
  lemma ParseLineFields(line: string, id: nat, angle: nat, x: nat, y: nat)
    requires |line| >= 26 && id < 1000 && angle < 1000 && x < 10000 && y < 10000
    requires line[2..5] == Padded(id, 3) && line[11..14] == Padded(angle, 3)
    requires line[16..20] == Padded(x, 4) && line[22..26] == Padded(y, 4)
    ensures ParseLine(line) == Some(Snap(id, angle, x, y))
  {
    var t := StripRight(line);
    assert IsDigit(line[25]) by {
      assert line[25] == Padded(y, 4)[3];
    }
    assert |t| >= 26;
    assert Slice(t, 2, 5) == Padded(id, 3);
    assert Slice(t, 11, 14) == Padded(angle, 3);
    assert Slice(t, 16, 20) == Padded(x, 4);
    assert Slice(t, 22, 26) == Padded(y, 4);
    ParsePadded(id, 3);
    ParsePadded(angle, 3);
    ParsePadded(x, 4);
    ParsePadded(y, 4);
  }

  /** A line that ends before the y field cannot be read: int("") raises. */
  lemma ShortLineRejected(line: string)
    requires |StripRight(line)| <= 22
    ensures ParseLine(line).None?
  {
    assert Slice(StripRight(line), 22, 26) == "";
  }

  /** `if not x or not y: continue` */
  predicate Kept(s: Snap)
  {
    s.x != 0 && s.y != 0
  }

  /** How one line is read; the reader uses ParseLine. */
  type LineReader = string -> Option<Snap>

  /** The detections the reader keeps, in file order; a line that does not
      parse contributes nothing here (the reader stops at it). */
  function KeptSnaps(lines: seq<string>, read: LineReader): (snaps: seq<Snap>)
    ensures forall s | s in snaps :: Kept(s)
  {
    if lines == [] then []
    else
      var front := KeptSnaps(lines[..|lines| - 1], read);
      var parsed := read(lines[|lines| - 1]);
      if parsed.Some? && Kept(parsed.value) then front + [parsed.value] else front
  }

  /** A detection is kept exactly when some line parses to it and it has a
      position. */
  lemma {:induction false} KeptSnapsMembers(lines: seq<string>, read: LineReader, s: Snap)
    ensures s in KeptSnaps(lines, read) <==> Kept(s) && exists i | 0 <= i < |lines| :: read(lines[i]) == Some(s)
  {
    if lines != [] {
      var front := lines[..|lines| - 1];
      KeptSnapsMembers(front, read, s);
      if exists i | 0 <= i < |front| :: read(front[i]) == Some(s) {
        var i :| 0 <= i < |front| && read(front[i]) == Some(s);
        assert lines[i] == front[i];
      }
      if exists i | 0 <= i < |lines| :: read(lines[i]) == Some(s) {
        var i :| 0 <= i < |lines| && read(lines[i]) == Some(s);
        if i < |front| {
          assert front[i] == lines[i];
        }
      }
    }
  }

  /** The detections of light `id`, in order. */
  function SnapsOf(snaps: seq<Snap>, id: int): (r: seq<Snap>)
    ensures |r| <= |snaps|
    ensures forall s | s in r :: s in snaps && s.ledId == id
  {
    if snaps == [] then []
    else
      var last := snaps[|snaps| - 1];
      SnapsOf(snaps[..|snaps| - 1], id) + (if last.ledId == id then [last] else [])
  }

  /** The ids of the detections in order of first appearance. */
  function GroupOrder(snaps: seq<Snap>): seq<int>
  {
    if snaps == [] then []
    else
      var ids := GroupOrder(snaps[..|snaps| - 1]);
      var last := snaps[|snaps| - 1];
      if last.ledId in ids then ids else ids + [last.ledId]
  }

  /** `shot.setdefault(led_id, []).append(snap)` for each detection. */
  function Grouped(snaps: seq<Snap>): map<int, seq<Snap>>
  {
    if snaps == [] then map[]
    else
      var table := Grouped(snaps[..|snaps| - 1]);
      var last := snaps[|snaps| - 1];
      table[last.ledId := (if last.ledId in table then table[last.ledId] else []) + [last]]
  }

  /** The table has a key for each light that has a detection, holding that
      light's detections in order, and its keys are listed once each in
      order of first appearance. */
  lemma {:induction false} GroupedSpec(snaps: seq<Snap>)
    ensures forall k :: k in Grouped(snaps) <==> SnapsOf(snaps, k) != []
    ensures forall k | k in Grouped(snaps) :: Grouped(snaps)[k] == SnapsOf(snaps, k)
    ensures Enumerates(GroupOrder(snaps), Grouped(snaps).Keys)
  {
    if snaps != [] {
      GroupedSpec(snaps[..|snaps| - 1]);
    }
  }

  /** What the reader produces: the grouped detections and their key order,
      or the index of the first line int() rejects. */
  datatype Parsed = Shots(shots: map<int, seq<Snap>>, ids: seq<int>) | BadLine(index: nat)

  /** The reading loop of main, for any way of reading one line. */
  method ReadLines(lines: seq<string>, read: LineReader) returns (r: Parsed)
    ensures r.BadLine? <==> exists i | 0 <= i < |lines| :: read(lines[i]).None?
    ensures r.BadLine? ==>
      && r.index < |lines| && read(lines[r.index]).None?
      && forall j | 0 <= j < r.index :: read(lines[j]).Some?
    ensures r.Shots? ==> r.shots == Grouped(KeptSnaps(lines, read)) && r.ids == GroupOrder(KeptSnaps(lines, read))
  {
    var shots: map<int, seq<Snap>> := map[];
    var ids: seq<int> := [];
    for i := 0 to |lines|
      invariant forall j | 0 <= j < i :: read(lines[j]).Some?
      invariant shots == Grouped(KeptSnaps(lines[..i], read)) && ids == GroupOrder(KeptSnaps(lines[..i], read))
    {
      assert lines[..i + 1][..i] == lines[..i];
      var parsed := read(lines[i]);
      if parsed.None? {
        return BadLine(i);
      }
      var s := parsed.value;
      GroupedSpec(KeptSnaps(lines[..i], read));
      if !Kept(s) {
        continue;
      }
      if s.ledId !in shots {
        ids := ids + [s.ledId];
      }
      shots := shots[s.ledId := (if s.ledId in shots then shots[s.ledId] else []) + [s]];
    }
    assert lines[..|lines|] == lines;
    r := Shots(shots, ids);
  }

  /** The reader of the scan file: stops at the first line int() rejects,
      otherwise groups the kept detections by light. */
  method ParseLines(lines: seq<string>) returns (r: Parsed)
    ensures r.BadLine? <==> exists i | 0 <= i < |lines| :: ParseLine(lines[i]).None?
    ensures r.BadLine? ==>
      && r.index < |lines| && ParseLine(lines[r.index]).None?
      && forall j | 0 <= j < r.index :: ParseLine(lines[j]).Some?
    ensures r.Shots? ==> r.shots == Grouped(KeptSnaps(lines, ParseLine)) && r.ids == GroupOrder(KeptSnaps(lines, ParseLine))
  {
    r := ReadLines(lines, ParseLine);
  }
}
