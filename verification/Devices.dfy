// The states of single devices in src/input_state.cpp and src/input_gamepad_state.cpp, as values.
module Devices {

  // ---------------------------------------------------------------------------------------------
  // Touch contacts

  datatype TouchContactId = TouchContactId(touchId: int, fingerId: int)

  predicate ValidContact(id: TouchContactId) {
    id.touchId != 0 || id.fingerId != 0
  }

  datatype TouchPoint = TouchPoint(id: TouchContactId, x: real, y: real, dx: real, dy: real, pressure: real,
                                   timestamp: nat, currentDown: bool, previousDown: bool)

  function NewTouch(): TouchPoint {
    TouchPoint(TouchContactId(0, 0), 0.0, 0.0, 0.0, 0.0, 0.0, 0, false, false)
  }

  /** What an event says about a contact. */
  datatype Contact = Contact(x: real, y: real, dx: real, dy: real, pressure: real, timestamp: nat)

  function SetContact(t: TouchPoint, id: TouchContactId, c: Contact, pressed: bool): TouchPoint {
    TouchPoint(id, c.x, c.y, c.dx, c.dy, c.pressure, c.timestamp, pressed, t.previousDown)
  }

  function TouchNextFrame(t: TouchPoint): TouchPoint {
    t.(previousDown := t.currentDown, dx := 0.0, dy := 0.0)
  }

  // ---------------------------------------------------------------------------------------------
  // Pens

  const PEN_BUTTON_COUNT: nat := 5
  const PEN_AXIS_COUNT: nat := 7
  const PEN_EVENT_HISTORY_LIMIT: nat := 128

  /** The bits of SDL_PenInputFlags. */
  datatype PenFlag = TipDown | ButtonFlag(number: nat) | EraserTip

  datatype PenEventType = ProximityIn | ProximityOut | Motion | Down | Up | ButtonDown | ButtonUp | Axis

  datatype PenEventRecord = PenEventRecord(
    kind: PenEventType, penId: nat, x: real, y: real, xrel: real, yrel: real, timestamp: nat, flags: set<PenFlag>,
    eraser: bool, inRange: bool, down: bool, button: nat, buttonDown: bool, axis: nat, value: real, axes: seq<real>)

  datatype Pen = Pen(
    penId: nat, x: real, y: real, xrel: real, yrel: real, timestamp: nat, flags: set<PenFlag>, eraser: bool,
    currentInRange: bool, previousInRange: bool, currentDown: bool, previousDown: bool, hasPosition: bool,
    seenAxes: set<nat>, currentButtons: seq<bool>, previousButtons: seq<bool>, axes: seq<real>,
    recentEvents: seq<PenEventRecord>)

  function NoButtons(): seq<bool> {
    seq(PEN_BUTTON_COUNT, _ => false)
  }

  function NoAxes(): seq<real> {
    seq(PEN_AXIS_COUNT, _ => 0.0)
  }

  function NewPen(): Pen {
    Pen(0, 0.0, 0.0, 0.0, 0.0, 0, {}, false, false, false, false, false, false, {}, NoButtons(), NoButtons(), NoAxes(),
        [])
  }

  /** What an event says about a pen. */
  datatype PenInput = PenInput(x: real, y: real, flags: set<PenFlag>, timestamp: nat)

  function SetProximity(p: Pen, inRange: bool, timestamp: nat): Pen {
    var q := p.(xrel := 0.0, yrel := 0.0, timestamp := timestamp, currentInRange := inRange, hasPosition := false,
                flags := {}, seenAxes := {}, axes := NoAxes(), currentDown := false);
    if inRange then q else q.(eraser := false, currentButtons := NoButtons())
  }

  function MovedTo(p: Pen, x: real, y: real): Pen {
    if p.hasPosition then p.(xrel := x - p.x, yrel := y - p.y, x := x, y := y)
    else p.(xrel := 0.0, yrel := 0.0, hasPosition := true, x := x, y := y)
  }

  function ButtonsOf(flags: set<PenFlag>): seq<bool> {
    seq(PEN_BUTTON_COUNT, i requires 0 <= i < PEN_BUTTON_COUNT => ButtonFlag(i + 1) in flags)
  }

  /** What every event other than proximity does, with the tip and the eraser as they turn out. */
  function Updated(p: Pen, i: PenInput, down: bool, eraser: bool): Pen {
    MovedTo(p, i.x, i.y).(timestamp := i.timestamp, flags := i.flags, currentInRange := true, currentDown := down,
                          eraser := eraser, currentButtons := ButtonsOf(i.flags))
  }

  function SetMotion(p: Pen, i: PenInput): Pen {
    Updated(p, i, TipDown in i.flags, EraserTip in i.flags)
  }

  function SetTouch(p: Pen, i: PenInput, eraser: bool, down: bool): Pen {
    Updated(p, i, down, eraser)
  }

  function SetButton(p: Pen, i: PenInput, button: nat, down: bool): Pen {
    var q := SetMotion(p, i);
    if 1 <= button <= |q.currentButtons| then q.(currentButtons := q.currentButtons[button - 1 := down]) else q
  }

  function SetAxis(p: Pen, i: PenInput, axis: nat, value: real): Pen {
    var q := SetMotion(p, i);
    if axis < |q.axes| then q.(axes := q.axes[axis := value], seenAxes := q.seenAxes + {axis}) else q
  }

  function PenNextFrame(p: Pen): Pen {
    p.(previousInRange := p.currentInRange, previousDown := p.currentDown, previousButtons := p.currentButtons,
       xrel := 0.0, yrel := 0.0)
  }

  /** The record of an event, made from the pen as the event left it. */
  function RecordOf(kind: PenEventType, id: nat, p: Pen, button: nat, buttonDown: bool, axis: nat, value: real)
    : PenEventRecord
  {
    PenEventRecord(kind, id, p.x, p.y, p.xrel, p.yrel, p.timestamp, p.flags, p.eraser, p.currentInRange,
                   p.currentDown, button, buttonDown, axis, value, p.axes)
  }

  // ---------------------------------------------------------------------------------------------
  // Gamepads

  const MAX_BUTTONS: nat := 26
  const MAX_AXES: nat := 6

  datatype Gamepad = Gamepad(connected: bool, instanceId: nat, deviceIndex: int, timestamp: nat, axes: seq<real>,
                             currentButtons: seq<bool>, previousButtons: seq<bool>)

  function NewGamepad(): Gamepad {
    Gamepad(false, 0, -1, 0, seq(MAX_AXES, _ => 0.0), seq(MAX_BUTTONS, _ => false), seq(MAX_BUTTONS, _ => false))
  }

  function Connect(g: Gamepad, deviceIndex: int, id: nat, timestamp: nat): Gamepad {
    g.(connected := true, deviceIndex := deviceIndex, instanceId := id, timestamp := timestamp)
  }

  function PressButton(g: Gamepad, button: nat, pressed: bool, id: nat, timestamp: nat): Gamepad
    requires button < |g.currentButtons|
  {
    g.(connected := true, instanceId := id, timestamp := timestamp,
       currentButtons := g.currentButtons[button := pressed])
  }

  function MoveAxis(g: Gamepad, axis: nat, value: real, id: nat, timestamp: nat): Gamepad
    requires axis < |g.axes|
  {
    var clamped := if value < -1.0 then -1.0 else if value > 1.0 then 1.0 else value;
    g.(connected := true, instanceId := id, timestamp := timestamp, axes := g.axes[axis := clamped])
  }

  function GamepadNextFrame(g: Gamepad): Gamepad {
    g.(previousButtons := g.currentButtons)
  }
}
