/** code/s3_manual.py: the screen for adjusting the scanned coordinates by
    hand. One light is selected; the arrow keys (or the right stick) move it
    5 units along the axis of the current mode, and the tree is coloured by
    how far each light is from the selected one along that axis. */
module Manual {
  import opened Coords
  import opened Colors

  const AdjustmentDistance := 5
  const Nearby := 150
  const StickThreshold := 0.5
  const NegStickThreshold := -StickThreshold

  /** pygame key codes of the keys the screen reads. */
  const KeyX := 120
  const KeyY := 121
  const KeyZ := 122
  const KeyEscape := 27
  const KeyJ := 106
  const KeyK := 107
  const KeyD := 100
  const KeyA := 97
  const KeyReturn := 13

  /** TranslationMode: which axis moves, and whether the view is mirrored. */
  datatype TranslationMode = X | Y | ZX | XNeg | YNeg | ZY

  predicate Mirrored(m: TranslationMode)
  {
    m == XNeg || m == YNeg
  }

  datatype Axis = AxisX | AxisY | AxisZ

  function AxisValue(c: Coord3d, a: Axis): int
  {
    match a
    case AxisX => c.x
    case AxisY => c.y
    case AxisZ => c.z
  }

  /** The extractor of to_color_def: the axis the mode adjusts. */
  function ModeAxis(m: TranslationMode): Axis
  {
    match m
    case X => AxisX
    case XNeg => AxisX
    case Y => AxisY
    case YNeg => AxisY
    case ZX => AxisZ
    case ZY => AxisZ
  }

  /** A Coord3d object, which the plus_/minus_ helpers change in place. */
  class LedCoord {
    var ledId: int
    var x: int
    var y: int
    var z: int

    constructor (c: Coord3d)
      ensures Value() == c
    {
      ledId, x, y, z := c.ledId, c.x, c.y, c.z;
    }

    function Value(): Coord3d
      reads this
    {
      Coord3d(ledId, x, y, z)
    }

    /** minus_x */
    method MinusX() returns (self: LedCoord)
      modifies this
      ensures self == this && Value() == old(WithX(Value(), Value().x - AdjustmentDistance))
    {
      x := x - AdjustmentDistance;
      self := this;
    }

    /** plus_x */
    method PlusX() returns (self: LedCoord)
      modifies this
      ensures self == this && Value() == old(WithX(Value(), Value().x + AdjustmentDistance))
    {
      x := x + AdjustmentDistance;
      self := this;
    }

    /** minus_y */
    method MinusY() returns (self: LedCoord)
      modifies this
      ensures self == this && Value() == old(WithY(Value(), Value().y - AdjustmentDistance))
    {
      y := y - AdjustmentDistance;
      self := this;
    }

    /** plus_y */
    method PlusY() returns (self: LedCoord)
      modifies this
      ensures self == this && Value() == old(WithY(Value(), Value().y + AdjustmentDistance))
    {
      y := y + AdjustmentDistance;
      self := this;
    }

    /** minus_z */
    method MinusZ() returns (self: LedCoord)
      modifies this
      ensures self == this && Value() == old(WithZ(Value(), Value().z - AdjustmentDistance))
    {
      z := z - AdjustmentDistance;
      self := this;
    }

    /** plus_z */
    method PlusZ() returns (self: LedCoord)
      modifies this
      ensures self == this && Value() == old(WithZ(Value(), Value().z + AdjustmentDistance))
    {
      z := z + AdjustmentDistance;
      self := this;
    }
  }

  /** The move one press makes: to_up_pressed when up, to_down_pressed
      otherwise, as a step along the mode's axis. */
  function Step(m: TranslationMode, up: bool): int
  {
    var forward := if Mirrored(m) then -AdjustmentDistance else AdjustmentDistance;
    if up then forward else -forward
  }

  function Moved(c: Coord3d, a: Axis, d: int): (r: Coord3d)
    ensures r.ledId == c.ledId && AxisValue(r, a) == AxisValue(c, a) + d
    ensures forall b | b != a :: AxisValue(r, b) == AxisValue(c, b)
  {
    match a
    case AxisX => WithX(c, c.x + d)
    case AxisY => WithY(c, c.y + d)
    case AxisZ => WithZ(c, c.z + d)
  }

  /** to_up_pressed[mode](coord) or to_down_pressed[mode](coord). */
  method Press(c: LedCoord, m: TranslationMode, up: bool) returns (self: LedCoord)
    modifies c
    ensures self == c && c.Value() == Moved(old(c.Value()), ModeAxis(m), Step(m, up))
  {
    match (m, up)
    case (X, true) => self := c.PlusX();
    case (X, false) => self := c.MinusX();
    case (XNeg, true) => self := c.MinusX();
    case (XNeg, false) => self := c.PlusX();
    case (Y, true) => self := c.PlusY();
    case (Y, false) => self := c.MinusY();
    case (YNeg, true) => self := c.MinusY();
    case (YNeg, false) => self := c.PlusY();
    case (ZX, true) => self := c.PlusZ();
    case (ZX, false) => self := c.MinusZ();
    case (ZY, true) => self := c.PlusZ();
    case (ZY, false) => self := c.MinusZ();
  }

  /** In every mode the down table undoes the up table; up moves 5 along
      the mode's axis, backwards in the mirrored modes. */
  lemma DownUndoesUp(c: Coord3d, m: TranslationMode)
    ensures Moved(Moved(c, ModeAxis(m), Step(m, true)), ModeAxis(m), Step(m, false)) == c
    ensures Step(m, true) == (if Mirrored(m) then -5 else 5)
  {
  }

  /** One frame of the translate loop: down wins over up; with neither
      pressed the light stays where it is. */
  method Adjust(c: LedCoord, m: TranslationMode, downPressed: bool, upPressed: bool)
    modifies c
    ensures c.Value() == if downPressed then Moved(old(c.Value()), ModeAxis(m), Step(m, false))
                         else if upPressed then Moved(old(c.Value()), ModeAxis(m), Step(m, true))
                         else old(c.Value())
  {
    if downPressed {
      var _ := Press(c, m, false);
    } else if upPressed {
      var _ := Press(c, m, true);
    }
  }

  /** The mode after a key: x, y and z enter their axis, and a second press
      switches between the two modes of that axis. */
  function ModeAfterKey(m: TranslationMode, key: int): TranslationMode
  {
    if key == KeyX then (if m != X then X else XNeg)
    else if key == KeyY then (if m != Y then Y else YNeg)
    else if key == KeyZ then (if m != ZX then ZX else ZY)
    else m
  }

  lemma ModeKeysSpec(m: TranslationMode)
    ensures ModeAxis(ModeAfterKey(m, KeyX)) == AxisX && ModeAxis(ModeAfterKey(m, KeyY)) == AxisY
    ensures ModeAxis(ModeAfterKey(m, KeyZ)) == AxisZ
    ensures ModeAfterKey(m, KeyX) == X <==> m != X
    ensures ModeAfterKey(ModeAfterKey(X, KeyX), KeyX) == X && ModeAfterKey(ModeAfterKey(Y, KeyY), KeyY) == Y
    ensures ModeAfterKey(ModeAfterKey(ZX, KeyZ), KeyZ) == ZX
  {
  }

  /** (selected_led_id + 1) % len(coords) */
  function NextLed(selected: int, count: int): (r: int)
    requires count > 0
    ensures 0 <= r < count
  {
    (selected + 1) % count
  }

  /** (selected_led_id - 1) % len(coords); Python's % never goes negative
      for a positive count, like Dafny's. */
  function PrevLed(selected: int, count: int): (r: int)
    requires count > 0
    ensures 0 <= r < count
  {
    (selected - 1) % count
  }

  /** From a light in range, next and previous undo each other and both
      wrap around the ends. */
  lemma SelectionCycles(selected: int, count: int)
    requires 0 <= selected < count
    ensures PrevLed(NextLed(selected, count), count) == selected
    ensures NextLed(PrevLed(selected, count), count) == selected
    ensures NextLed(count - 1, count) == 0 && PrevLed(0, count) == count - 1
  {
    WrapAround(selected, count);
    WrapAround(count - 1, count);
    WrapAround(0, count);
    WrapAround(NextLed(selected, count), count);
    WrapAround(PrevLed(selected, count), count);
  }

  lemma WrapAround(s: int, count: int)
    requires 0 <= s < count
    ensures NextLed(s, count) == if s + 1 == count then 0 else s + 1
    ensures PrevLed(s, count) == if s == 0 then count - 1 else s - 1
  {
    if s + 1 == count {
      assert (s + 1) % count == 0;
    } else {
      assert (s + 1) % count == s + 1;
    }
    if s == 0 {
      assert (-1) % count == count - 1;
    } else {
      assert (s - 1) % count == s - 1;
    }
  }

  datatype Event = Quit | KeyDown(key: int) | OtherEvent

  /** How the event loop ends: it went through every event, or it returned
      on a quit (do_program becomes false) or on escape (back to the menu). */
  datatype Exit = Continue | Quitting | Escaped

  /** The state after the events from index i on. */
  function AfterEvents(events: seq<Event>, i: nat, m: TranslationMode, selected: int, count: int): (r: (TranslationMode, int, Exit))
    requires i <= |events| && count > 0
    decreases |events| - i
  {
    if i == |events| then (m, selected, Continue)
    else
      match events[i]
      case Quit => (m, selected, Quitting)
      case OtherEvent => AfterEvents(events, i + 1, m, selected, count)
      case KeyDown(key) =>
        var m' := ModeAfterKey(m, key);
        if key == KeyEscape then (m', selected, Escaped)
        else
          var s1 := if key == KeyJ || key == KeyD || key == KeyReturn then NextLed(selected, count) else selected;
          var s2 := if key == KeyK || key == KeyA then PrevLed(s1, count) else s1;
          AfterEvents(events, i + 1, m', s2, count)
  }

  /** The `for e in events` loop of translate. */
  method HandleEvents(events: seq<Event>, m0: TranslationMode, selected0: int, count: int)
    returns (m: TranslationMode, selected: int, exit: Exit)
    requires count > 0
    ensures (m, selected, exit) == AfterEvents(events, 0, m0, selected0, count)
  {
    m, selected := m0, selected0;
    for i := 0 to |events|
      invariant AfterEvents(events, i, m, selected, count) == AfterEvents(events, 0, m0, selected0, count)
    {
      match events[i]
      case Quit =>
        return m, selected, Quitting;
      case OtherEvent =>
      case KeyDown(key) =>
        m := ModeAfterKey(m, key);
        if key == KeyEscape {
          return m, selected, Escaped;
        }
        if key == KeyJ || key == KeyD || key == KeyReturn {
          selected := NextLed(selected, count);
        }
        if key == KeyK || key == KeyA {
          selected := PrevLed(selected, count);
        }
    }
    exit := Continue;
  }

  /** The keys that move the selection: j, d and Return forward, k and a
      back. */
  predicate SelectionKey(key: int)
  {
    key == KeyJ || key == KeyD || key == KeyReturn || key == KeyK || key == KeyA
  }

  /** The selection stays among the lights whatever the events; a light
      in range stays put when no selection key is pressed. */
  lemma {:induction false} SelectionStaysInRange(events: seq<Event>, i: nat, m: TranslationMode, selected: int, count: int)
    requires i <= |events| && count > 0 && 0 <= selected < count
    ensures 0 <= AfterEvents(events, i, m, selected, count).1 < count
    ensures (forall j | i <= j < |events| :: !(events[j].KeyDown? && SelectionKey(events[j].key))) ==>
      AfterEvents(events, i, m, selected, count).1 == selected
    decreases |events| - i
  {
    if i < |events| && !events[i].Quit? {
      var m' := if events[i].KeyDown? then ModeAfterKey(m, events[i].key) else m;
      if events[i].OtherEvent? {
        SelectionStaysInRange(events, i + 1, m, selected, count);
      } else if events[i].key != KeyEscape {
        var key := events[i].key;
        var s1 := if key == KeyJ || key == KeyD || key == KeyReturn then NextLed(selected, count) else selected;
        var s2 := if key == KeyK || key == KeyA then PrevLed(s1, count) else s1;
        SelectionStaysInRange(events, i + 1, m', s2, count);
      }
    }
  }

  /** sign(i) */
  function Sign(i: real): (s: int)
    ensures s == -1 <==> i < 0.0
    ensures s == 0 <==> i == 0.0
    ensures s == 1 <==> i > 0.0
  {
    if i < 0.0 then -1 else if i == 0.0 then 0 else 1
  }

  function Abs(v: real): real
  {
    if v < 0.0 then -v else v
  }

  /** XBone.is_pressed for a stick: a non-zero axis value on the side of
      the threshold and at least as far out. */
  predicate StickPressed(value: real, threshold: real)
  {
    if value == 0.0 then false
    else if Sign(value) != Sign(threshold) then false
    else Abs(value) >= Abs(threshold)
  }

  /** With the ±0.5 thresholds of the sticks: pressed exactly at 0.5 or
      beyond on the threshold's side. */
  lemma StickSpec(value: real)
    ensures StickPressed(value, StickThreshold) <==> value >= 0.5
    ensures StickPressed(value, NegStickThreshold) <==> value <= -0.5
  {
  }

  const Selected := Color(250, 250, 250)
  const Close := Color(0, 50, 0)
  const Below := Color(50, 0, 0)
  const Above := Color(0, 0, 50)
  const Far := Color(0, 0, 0)

  /** The colour of one light: white for the selected one, green within 5
      of it on the axis, red when it lies within 150 below, blue within 150
      above, dark otherwise. */
  function LedShade(id: int, value: int, selectedId: int, selectedValue: int): Color
  {
    if id == selectedId then Selected
    else if selectedValue - AdjustmentDistance <= value <= selectedValue + AdjustmentDistance then Close
    else if value < selectedValue < value + Nearby then Below
    else if value - Nearby < selectedValue < value then Above
    else Far
  }

  /** color_tree(selected_led_id, extractor): one colour per light. */
  function ColorTree(coords: map<int, Coord3d>, selectedId: int, a: Axis): (pix: map<int, Color>)
    requires selectedId in coords
    ensures pix.Keys == coords.Keys
  {
    var selectedValue := AxisValue(coords[selectedId], a);
    map id | id in coords :: LedShade(id, AxisValue(coords[id], a), selectedId, selectedValue)
  }

  /** Each light gets exactly the colour its distance calls for, and the
      conditions of the five colours exclude each other. */
  lemma ColorTreeSpec(coords: map<int, Coord3d>, selectedId: int, a: Axis, id: int)
    requires selectedId in coords && id in coords
    ensures var pix := ColorTree(coords, selectedId, a);
      var v := AxisValue(coords[id], a);
      var s := AxisValue(coords[selectedId], a);
      && (pix[id] == Selected <==> id == selectedId)
      && (pix[id] == Close <==> id != selectedId && -5 <= v - s <= 5)
      && (pix[id] == Below <==> id != selectedId && 5 < s - v < 150)
      && (pix[id] == Above <==> id != selectedId && 5 < v - s < 150)
      && (pix[id] == Far <==> id != selectedId && (v - s > 5 || s - v > 5) && (v - s >= 150 || s - v >= 150))
  {
  }
}
