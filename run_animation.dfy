/** code/s5_run_animation.py: reading an animation file for the tree. Each
    CSV row is a frame number followed by three values per light; the
    values are cut into windows of three and red and green change places,
    because the tree's lights take green first. Driving the lights is not
    modelled. */
module RunAnimation {
  import opened Wrappers
  import opened Text
  import Colors
  import Animation

  /** window(lst, n): the slices lst[i:i+n] for i = 0, n, 2n, ... below
      len(lst); a negative step gives none. A step of 0 makes range()
      raise, so callers must avoid it. */
  function Window<T>(lst: seq<T>, n: int): seq<seq<T>>
    requires n != 0
  {
    if n < 0 then [] else WindowFrom(lst, n, 0)
  }

  /** The slices from offset i on; the last one is cut at the end of the
      list. */
  function WindowFrom<T>(lst: seq<T>, n: nat, i: nat): seq<seq<T>>
    requires n > 0
    decreases |lst| - i
  {
    if i >= |lst| then []
    else [lst[i .. if i + n <= |lst| then i + n else |lst|]] + WindowFrom(lst, n, i + n)
  }

  function Flatten<T>(chunks: seq<seq<T>>): seq<T>
  {
    if chunks == [] then [] else chunks[0] + Flatten(chunks[1..])
  }

  /** Putting the slices back together gives the list. */
  lemma {:induction false} WindowConcat<T>(lst: seq<T>, n: nat, i: nat)
    requires n > 0 && i <= |lst|
    ensures Flatten(WindowFrom(lst, n, i)) == lst[i..]
    decreases |lst| - i
  {
    if i < |lst| {
      var chunks := WindowFrom(lst, n, i);
      assert chunks[1..] == WindowFrom(lst, n, i + n);
      if i + n <= |lst| {
        WindowConcat(lst, n, i + n);
        assert lst[i..] == lst[i .. i + n] + lst[i + n ..];
      } else {
        assert WindowFrom(lst, n, i + n) == [];
      }
    }
  }

  /** There are ceil((len(lst) - i) / n) slices: none for nothing left, and
      otherwise c with (c - 1) * n < len(lst) - i <= c * n. */
  lemma {:induction false} WindowCount<T>(lst: seq<T>, n: nat, i: nat)
    requires n > 0 && i <= |lst|
    ensures var c := |WindowFrom(lst, n, i)|;
      (c == 0 <==> i == |lst|) && (c > 0 ==> (c - 1) * n < |lst| - i <= c * n)
    decreases |lst| - i
  {
    if i < |lst| {
      var c := |WindowFrom(lst, n, i)|;
      if i + n <= |lst| {
        WindowCount(lst, n, i + n);
        var c' := c - 1;
        assert c' * n == (c' - 1) * n + n;
        assert c * n == c' * n + n;
      } else {
        assert WindowFrom(lst, n, i + n) == [];
        assert c == 1;
      }
    }
  }

  /** Slice k starts at i + k * n; every slice but the last has n items and
      the last has between 1 and n. */
  lemma {:induction false} WindowSlices<T>(lst: seq<T>, n: nat, i: nat, k: nat)
    requires n > 0 && i <= |lst| && k < |WindowFrom(lst, n, i)|
    ensures i + k * n < |lst|
    ensures var hi := if i + (k + 1) * n <= |lst| then i + (k + 1) * n else |lst|;
      WindowFrom(lst, n, i)[k] == lst[i + k * n .. hi]
    ensures 0 < |WindowFrom(lst, n, i)[k]| <= n
    ensures k < |WindowFrom(lst, n, i)| - 1 ==> |WindowFrom(lst, n, i)[k]| == n
    decreases k
  {
    if k > 0 {
      assert WindowFrom(lst, n, i)[k] == WindowFrom(lst, n, i + n)[k - 1];
      WindowSlices(lst, n, i + n, k - 1);
      assert i + n + (k - 1) * n == i + k * n;
      assert i + n + k * n == i + (k + 1) * n;
    } else if |WindowFrom(lst, n, i)| > 1 {
      assert i + n < |lst|;
    }
  }

  /** The GRB order of the tree: red and green change places. */
  function Swap(t: (int, int, int)): (s: (int, int, int))
    ensures s.2 == t.2 && s.0 == t.1 && s.1 == t.0
  {
    (t.1, t.0, t.2)
  }

  lemma SwapInvolution(t: (int, int, int))
    ensures Swap(Swap(t)) == t
    ensures Swap(t) == t <==> t.0 == t.1
  {
  }

  /** (int(led[1]), int(led[0]), int(led[2])); IndexError or ValueError
      give None. */
  function ParseLed(led: seq<string>): Option<(int, int, int)>
  {
    if |led| < 3 then None
    else
      match (ParseInt(led[0]), ParseInt(led[1]), ParseInt(led[2]))
      case (Some(r), Some(g), Some(b)) => Some(Swap((r, g, b)))
      case _ => None
  }

  /** How one window is read; rows use ParseLed. */
  type LedParser = seq<string> -> Option<(int, int, int)>

  /** The first n lights of a row. */
  function ParseLeds(leds: seq<seq<string>>, n: nat, parse: LedParser): Option<seq<(int, int, int)>>
    requires n <= |leds|
  {
    if n == 0 then Some([])
    else
      match (ParseLeds(leds, n - 1, parse), parse(leds[n - 1]))
      case (Some(front), Some(t)) => Some(front + [t])
      case _ => None
  }

  /** The frame of one row: row.pop(0) must exist and be an integer; the
      rest is read three values at a time. */
  function ParseRow(row: seq<string>): Option<seq<(int, int, int)>>
  {
    if row == [] || ParseInt(row[0]).None? then None
    else
      var leds := Window(row[1..], 3);
      ParseLeds(leds, |leds|, ParseLed)
  }

  /** The loop over the windows of one row. */
  method ReadRow(row: seq<string>) returns (frame: Option<seq<(int, int, int)>>)
    ensures frame == ParseRow(row)
  {
    if row == [] {
      return None;
    }
    var frameNumber := ParseInt(row[0]);
    if frameNumber.None? {
      return None;
    }
    var leds := Window(row[1..], 3);
    var parsed: seq<(int, int, int)> := [];
    for i := 0 to |leds|
      invariant ParseLeds(leds, i, ParseLed) == Some(parsed)
    {
      var t := ParseLed(leds[i]);
      if t.None? {
        ParseLedsFails(leds, i + 1, |leds|, ParseLed);
        return None;
      }
      parsed := parsed + [t.value];
    }
    frame := Some(parsed);
  }

  /** Once a light fails to parse, the row fails. */
  lemma {:induction false} ParseLedsFails(leds: seq<seq<string>>, i: nat, n: nat, parse: LedParser)
    requires i <= n <= |leds| && ParseLeds(leds, i, parse).None?
    ensures ParseLeds(leds, n, parse).None?
    decreases n - i
  {
    if i < n {
      ParseLedsFails(leds, i + 1, n, parse);
    }
  }

  /** read_animation: one frame per row, in file order; None when any row
      is malformed. */
  method ReadAnimation(rows: seq<seq<string>>) returns (r: Option<seq<seq<(int, int, int)>>>)
    ensures r.None? <==> exists i | 0 <= i < |rows| :: ParseRow(rows[i]).None?
    ensures r.Some? ==> |r.value| == |rows| && forall i | 0 <= i < |rows| :: ParseRow(rows[i]) == Some(r.value[i])
  {
    r := ReadFrames(rows, ParseRow);
  }

  type RowParser = seq<string> -> Option<seq<(int, int, int)>>

  /** The loop of read_animation over the rows, with the row reader as a
      parameter. */
  method ReadFrames(rows: seq<seq<string>>, parse: RowParser) returns (r: Option<seq<seq<(int, int, int)>>>)
    ensures r.None? <==> exists i | 0 <= i < |rows| :: parse(rows[i]).None?
    ensures r.Some? ==> |r.value| == |rows| && forall i | 0 <= i < |rows| :: parse(rows[i]) == Some(r.value[i])
  {
    var lightFrames: seq<seq<(int, int, int)>> := [];
    for i := 0 to |rows|
      invariant |lightFrames| == i
      invariant forall j | 0 <= j < i :: parse(rows[j]) == Some(lightFrames[j])
    {
      var frame := parse(rows[i]);
      if frame.None? {
        return None;
      }
      lightFrames := lightFrames + [frame.value];
    }
    r := Some(lightFrames);
  }

  /** The text csv.writer gives each value of a row. */
  function Strings(row: seq<int>): (text: seq<string>)
    ensures |text| == |row|
  {
    if row == [] then [] else Strings(row[..|row| - 1]) + [DecimalString(row[|row| - 1])]
  }

  lemma {:induction false} StringsAt(row: seq<int>, i: nat)
    requires i < |row|
    ensures Strings(row)[i] == DecimalString(row[i])
  {
    if i < |row| - 1 {
      StringsAt(row[..|row| - 1], i);
    }
  }

  /** The light a written cell is read back as: its colour with red and
      green swapped. */
  function ReadBack(frame: map<int, Colors.Color>, led: int): (int, int, int)
  {
    var cell := Animation.Cell(frame, led);
    Swap((cell[0], cell[1], cell[2]))
  }

  /** A list of 3 * count items falls into count windows of three. */
  lemma TripleWindows<T>(s: seq<T>, count: nat)
    requires |s| == 3 * count
    ensures |Window(s, 3)| == count
    ensures forall k | 0 <= k < count :: Window(s, 3)[k] == s[3 * k .. 3 * k + 3]
  {
    WindowCount(s, 3, 0);
    var c := |Window(s, 3)|;
    if c > 0 {
      assert (c - 1) * 3 < 3 * count <= c * 3;
    }
    forall k | 0 <= k < count
      ensures Window(s, 3)[k] == s[3 * k .. 3 * k + 3]
    {
      WindowSlices(s, 3, 0, k);
    }
  }

  /** Three written values read back as one light, swapped. */
  lemma ParseLedText(a: int, b: int, c: int)
    ensures ParseLed([DecimalString(a), DecimalString(b), DecimalString(c)]) == Some(Swap((a, b, c)))
  {
    ParseDecimalString(a);
    ParseDecimalString(b);
    ParseDecimalString(c);
  }

  /** The k-th window of three after the frame number of a row of text is
      the text of the row's values 1 + 3k, 2 + 3k and 3 + 3k. */
  lemma TextWindow(row: seq<int>, count: nat, k: nat)
    requires |row| == 1 + 3 * count && k < count
    ensures var rest := Strings(row)[1..];
      |Window(rest, 3)| == count
      && Window(rest, 3)[k] == [DecimalString(row[1 + 3 * k]), DecimalString(row[2 + 3 * k]), DecimalString(row[3 + 3 * k])]
  {
    var rest := Strings(row)[1..];
    TripleWindows(rest, count);
    var led := Window(rest, 3)[k];
    forall j | 0 <= j < 3
      ensures led[j] == DecimalString(row[1 + 3 * k + j])
    {
      StringsAt(row, 1 + 3 * k + j);
      assert led[j] == Strings(row)[1 + 3 * k + j];
    }
  }

  /** Light k of a written row is the text of its cell's three values. */
  lemma LedText(index: int, frame: map<int, Colors.Color>, count: nat, k: nat)
    requires k < count
    ensures var rest := Strings(Animation.Row(index, frame, count))[1..];
      var cell := Animation.Cell(frame, k);
      |Window(rest, 3)| == count && Window(rest, 3)[k] == [DecimalString(cell[0]), DecimalString(cell[1]), DecimalString(cell[2])]
  {
    var row := Animation.Row(index, frame, count);
    Animation.RowShape(index, frame, count);
    TextWindow(row, count, k);
    var cell := Animation.Cell(frame, k);
    assert row[1 + 3 * k .. 4 + 3 * k] == cell;
    assert row[1 + 3 * k] == cell[0] && row[2 + 3 * k] == cell[1] && row[3 + 3 * k] == cell[2];
  }

  /** Light k of a written row reads back as its cell, swapped. */
  lemma LedReadsBack(index: int, frame: map<int, Colors.Color>, count: nat, k: nat)
    requires k < count
    ensures var rest := Strings(Animation.Row(index, frame, count))[1..];
      |Window(rest, 3)| == count && ParseLed(Window(rest, 3)[k]) == Some(ReadBack(frame, k))
  {
    LedText(index, frame, count, k);
    var cell := Animation.Cell(frame, k);
    ParseLedText(cell[0], cell[1], cell[2]);
  }

  /** A row written by the strip logger reads back as the frame's colours,
      light by light, in green-red-blue order. */
  lemma WrittenRowReadsBack(index: int, frame: map<int, Colors.Color>, count: nat)
    ensures ParseRow(Strings(Animation.Row(index, frame, count))).Some?
    ensures var f := ParseRow(Strings(Animation.Row(index, frame, count))).value;
      |f| == count && forall led | 0 <= led < count :: f[led] == ReadBack(frame, led)
  {
    var text := Strings(Animation.Row(index, frame, count));
    WrittenRowParts(index, frame, count);
    var leds := Window(text[1..], 3);
    var want := seq(count, k requires 0 <= k < count => ReadBack(frame, k));
    ParsedPrefix(leds, want, count, ParseLed);
  }

  /** A written row starts with its frame number, and its windows of three
      read back as the frame's lights. */
  lemma WrittenRowParts(index: int, frame: map<int, Colors.Color>, count: nat)
    ensures var text := Strings(Animation.Row(index, frame, count));
      && text != [] && ParseInt(text[0]) == Some(index)
      && |Window(text[1..], 3)| == count
      && forall k | 0 <= k < count :: ParseLed(Window(text[1..], 3)[k]) == Some(ReadBack(frame, k))
  {
    var row := Animation.Row(index, frame, count);
    Animation.RowShape(index, frame, count);
    StringsAt(row, 0);
    ParseDecimalString(index);
    WindowCount(Strings(row)[1..], 3, 0);
    assert |Window(Strings(row)[1..], 3)| == count;
    forall k | 0 <= k < count
      ensures ParseLed(Window(Strings(row)[1..], 3)[k]) == Some(ReadBack(frame, k))
    {
      LedReadsBack(index, frame, count, k);
    }
  }

  lemma {:induction false} ParsedPrefix(leds: seq<seq<string>>, want: seq<(int, int, int)>, n: nat, parse: LedParser)
    requires n <= |leds| && n <= |want|
    requires forall k | 0 <= k < n :: parse(leds[k]) == Some(want[k])
    ensures ParseLeds(leds, n, parse).Some? && |ParseLeds(leds, n, parse).value| == n
    ensures forall k | 0 <= k < n :: ParseLeds(leds, n, parse).value[k] == want[k]
  {
    if n > 0 {
      ParsedPrefix(leds, want, n - 1, parse);
    }
  }
}
