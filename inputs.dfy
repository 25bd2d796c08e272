/** code/treehero/inputs.py: a control input is a keyboard key or a
    controller button. The key codes are pygame 2's. */
module Inputs {
  import opened Wrappers

  const KeyboardId := -1

  const KeyA := 97
  const KeyS := 115
  const KeyD := 100
  const KeyF := 102
  const KeyG := 103
  const KeyReturn := 13
  const ArrowUp := 1073741906
  const ArrowDown := 1073741905

  datatype Source = Keyboard | Controller

  /** ControlInput(source, controller_id, button) */
  datatype ControlInput = ControlInput(source: Source, controllerId: int, button: int)

  /** kb_input(key) */
  function KbInput(key: int): (c: ControlInput)
    ensures c.source == Keyboard && c.controllerId == KeyboardId && c.button == key
  {
    ControlInput(Keyboard, KeyboardId, key)
  }

  /** jb_input(controller_id, button) */
  function JbInput(controllerId: int, button: int): (c: ControlInput)
    ensures c.source == Controller && c.controllerId == controllerId && c.button == button
  {
    ControlInput(Controller, controllerId, button)
  }

  /** The state of the keyboard, pygame.key.get_pressed(), as a lookup by
      key code. */
  type KeyState = int -> bool

  /** is_pressed(keys): the key's state for a keyboard input; a controller
      button never reads as pressed here. */
  predicate IsPressed(c: ControlInput, keys: KeyState)
  {
    if c.source == Keyboard then keys(c.button) else false
  }

  /** A controller input is never pressed, and a keyboard one exactly when
      its key is down. */
  lemma IsPressedSpec(c: ControlInput, keys: KeyState)
    ensures c.source == Controller ==> !IsPressed(c, keys)
    ensures c.source == Keyboard ==> (IsPressed(c, keys) <==> keys(c.button))
  {
  }

  /** The pygame events from_event looks at. */
  datatype Event = KeyDown(key: int) | JoyButtonDown(instanceId: int, button: int) | OtherEvent

  /** from_event: a key press or a controller button press; None for any
      other event. */
  function FromEvent(e: Event): Option<ControlInput>
  {
    match e
    case KeyDown(key) => Some(KbInput(key))
    case JoyButtonDown(id, button) => Some(JbInput(id, button))
    case OtherEvent => None
  }

  /** The event that binds an input. */
  function EventFor(c: ControlInput): Event
  {
    if c.source == Keyboard then KeyDown(c.button) else JoyButtonDown(c.controllerId, c.button)
  }

  /** Every press gives an input and the input names the press; every
      input a press can give comes back from its event. */
  lemma FromEventRoundTrip(e: Event, c: ControlInput)
    ensures FromEvent(e).Some? <==> !e.OtherEvent?
    ensures FromEvent(e).Some? ==> EventFor(FromEvent(e).value) == e
    ensures c.source == Controller || c.controllerId == KeyboardId ==> FromEvent(EventFor(c)) == Some(c)
  {
  }

  /** is_select_key: Return on the keyboard, button 0 on a controller. */
  predicate IsSelectKey(c: ControlInput)
  {
    if c.source == Keyboard then c.button == KeyReturn else c.button == 0
  }

  /** Both directions, per source. */
  lemma IsSelectKeySpec(key: int, id: int, button: int)
    ensures IsSelectKey(KbInput(key)) <==> key == KeyReturn
    ensures IsSelectKey(JbInput(id, button)) <==> button == 0
  {
  }
}
