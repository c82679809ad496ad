// The device tracking of src/input_state.cpp: which contacts, pens and gamepads there are, and which of each
// kind is the primary one.
module InputState {
  import opened Options
  import opened Devices
  import opened Recent

  // ---------------------------------------------------------------------------------------------
  // What a frame does to the device maps

  predicate TouchStays(t: TouchPoint) {
    t.currentDown || t.previousDown
  }

  function TouchesNextFrame(touches: map<TouchContactId, TouchPoint>): map<TouchContactId, TouchPoint> {
    map id | id in touches && TouchStays(touches[id]) :: TouchNextFrame(touches[id])
  }

  predicate PenStays(p: Pen) {
    p.currentInRange || p.previousInRange || p.currentDown || p.previousDown
  }

  function PensNextFrame(pens: map<nat, Pen>): map<nat, Pen> {
    map id | id in pens && PenStays(pens[id]) :: PenNextFrame(pens[id])
  }

  function GamepadsNextFrame(gamepads: map<nat, Gamepad>): map<nat, Gamepad> {
    map id | id in gamepads :: GamepadNextFrame(gamepads[id])
  }

  // ---------------------------------------------------------------------------------------------
  // The primary devices

  /** The primary contact is a tracked one that is down, and there is one exactly when any contact is down. */
  ghost predicate PrimaryTouchOk(primary: Option<TouchContactId>, touches: map<TouchContactId, TouchPoint>) {
    && (primary.Some? ==> primary.value in touches && touches[primary.value].currentDown)
    && (primary.None? ==> forall id :: id in touches ==> !touches[id].currentDown)
  }

  /** The same for pens in range; 0 stands for none. */
  ghost predicate PrimaryPenOk(primary: nat, pens: map<nat, Pen>) {
    && 0 !in pens
    && (primary != 0 ==> primary in pens && pens[primary].currentInRange)
    && (primary == 0 ==> forall id :: id in pens ==> !pens[id].currentInRange)
  }

  /** The same for connected gamepads. */
  ghost predicate PrimaryGamepadOk(primary: nat, gamepads: map<nat, Gamepad>) {
    && 0 !in gamepads
    && (primary != 0 ==> primary in gamepads && gamepads[primary].connected)
    && (primary == 0 ==> forall id :: id in gamepads ==> !gamepads[id].connected)
  }

  predicate IsDown(touches: map<TouchContactId, TouchPoint>, id: Option<TouchContactId>) {
    id.Some? && id.value in touches && touches[id.value].currentDown
  }

  predicate InRange(pens: map<nat, Pen>, id: nat) {
    id != 0 && id in pens && pens[id].currentInRange
  }

  /** Once a contact has gone down, the primary is what it was, or that contact if there was none. */
  lemma OnlyDownIsPrimary(before: Option<TouchContactId>, earlier: map<TouchContactId, TouchPoint>, id: TouchContactId,
                          after: Option<TouchContactId>, now: map<TouchContactId, TouchPoint>)
    requires PrimaryTouchOk(before, earlier) && PrimaryTouchOk(after, now)
    requires id in now && now[id].currentDown && now == earlier[id := now[id]]
    requires IsDown(now, before) ==> after == before
    ensures after == if before.Some? then before else Some(id)
  {
    if before.None? {
      assert after.Some?;
    }
  }

  lemma PrimaryTouchMovesOn(before: Option<TouchContactId>, earlier: map<TouchContactId, TouchPoint>,
                            after: Option<TouchContactId>, now: map<TouchContactId, TouchPoint>)
    requires PrimaryTouchOk(before, earlier) && PrimaryTouchOk(after, now) && now == TouchesNextFrame(earlier)
    requires IsDown(now, before) ==> after == before
    ensures after == before
  {
  }

  lemma PrimaryPenMovesOn(before: nat, earlier: map<nat, Pen>, after: nat, now: map<nat, Pen>)
    requires PrimaryPenOk(before, earlier) && PrimaryPenOk(after, now) && now == PensNextFrame(earlier)
    requires InRange(now, before) ==> after == before
    ensures after == before
  {
  }

  /** Arrays have their lengths, and a pen that is down is in range. */
  ghost predicate PenShape(p: Pen) {
    && |p.currentButtons| == |p.previousButtons| == PEN_BUTTON_COUNT && |p.axes| == PEN_AXIS_COUNT
    && (p.currentDown ==> p.currentInRange)
  }

  ghost predicate PensOk(pens: map<nat, Pen>, log: map<nat, seq<PenEventRecord>>) {
    && log.Keys == pens.Keys
    && forall id :: id in pens ==>
         PenShape(pens[id]) && pens[id].recentEvents == LastN(log[id], PEN_EVENT_HISTORY_LIMIT)
  }

  ghost predicate GamepadsOk(gamepads: map<nat, Gamepad>) {
    forall id :: id in gamepads ==>
      && |gamepads[id].axes| == MAX_AXES
      && |gamepads[id].currentButtons| == |gamepads[id].previousButtons| == MAX_BUTTONS
  }

  lemma PressedOk(gamepads: map<nat, Gamepad>, g: Gamepad, button: nat, pressed: bool, id: nat, timestamp: nat)
    requires GamepadsOk(gamepads) && g == (if id in gamepads then gamepads[id] else NewGamepad())
    requires button < MAX_BUTTONS
    ensures |g.currentButtons| == MAX_BUTTONS
    ensures GamepadsOk(gamepads[id := PressButton(g, button, pressed, id, timestamp)])
  {
  }

  datatype InputEvent =
    | NextFrame
    | TouchDown(contact: TouchContactId, c: Contact) | TouchMotion(contact: TouchContactId, c: Contact)
    | TouchUp(contact: TouchContactId, c: Contact)
    | PenIn(id: nat, timestamp: nat) | PenOut(id: nat, timestamp: nat) | PenMoved(id: nat, i: PenInput)
    | PenTouched(id: nat, i: PenInput, eraser: bool, down: bool)
    | PenButtonChanged(id: nat, i: PenInput, button: nat, down: bool)
    | PenAxisMoved(id: nat, i: PenInput, axis: nat, value: real)
    | GamepadConnected(id: nat, deviceIndex: int, timestamp: nat) | GamepadDisconnected(id: nat, timestamp: nat)
    | GamepadButtonChanged(id: nat, button: nat, pressed: bool, timestamp: nat)
    | GamepadAxisMoved(id: nat, axis: nat, value: real, timestamp: nat)

  /** SDL gives every pen and gamepad an identifier other than 0. */
  predicate HasId(e: InputEvent) {
    e.NextFrame? || IsTouchEvent(e) || e.id != 0
  }

  // ---------------------------------------------------------------------------------------------
  // What an event makes of the device maps

  function TouchOf(touches: map<TouchContactId, TouchPoint>, id: TouchContactId): TouchPoint {
    if id in touches then touches[id] else NewTouch()
  }

  function PenOf(pens: map<nat, Pen>, id: nat): Pen {
    if id in pens then pens[id] else NewPen()
  }

  function RecordsOf(log: map<nat, seq<PenEventRecord>>, id: nat): seq<PenEventRecord> {
    if id in log then log[id] else []
  }

  function GamepadOf(gamepads: map<nat, Gamepad>, id: nat): Gamepad {
    if id in gamepads then gamepads[id] else NewGamepad()
  }

  function TouchesAfter(touches: map<TouchContactId, TouchPoint>, e: InputEvent): map<TouchContactId, TouchPoint> {
    match e
    case NextFrame => TouchesNextFrame(touches)
    case TouchDown(id, c) => touches[id := SetContact(TouchOf(touches, id), id, c, true)]
    case TouchMotion(id, c) => touches[id := SetContact(TouchOf(touches, id), id, c, true)]
    case TouchUp(id, c) => touches[id := SetContact(TouchOf(touches, id), id, c, false)]
    case _ => touches
  }

  predicate IsTouchEvent(e: InputEvent) {
    e.TouchDown? || e.TouchMotion? || e.TouchUp?
  }

  predicate IsPenEvent(e: InputEvent) {
    e.PenIn? || e.PenOut? || e.PenMoved? || e.PenTouched? || e.PenButtonChanged? || e.PenAxisMoved?
  }

  function KindOf(e: InputEvent): PenEventType
    requires IsPenEvent(e)
  {
    match e
    case PenIn(_, _) => ProximityIn
    case PenOut(_, _) => ProximityOut
    case PenMoved(_, _) => Motion
    case PenTouched(_, _, _, down) => if down then Down else Up
    case PenButtonChanged(_, _, _, down) => if down then ButtonDown else ButtonUp
    case PenAxisMoved(_, _, _, _) => Axis
  }

  /** The pen of an event as the event leaves it, but for its history. */
  function PenLeft(p: Pen, e: InputEvent): Pen
    requires IsPenEvent(e)
  {
    var q := p.(penId := e.id);
    match e
    case PenIn(_, timestamp) => SetProximity(q, true, timestamp)
    case PenOut(_, timestamp) => SetProximity(q, false, timestamp)
    case PenMoved(_, i) => SetMotion(q, i)
    case PenTouched(_, i, eraser, down) => SetTouch(q, i, eraser, down)
    case PenButtonChanged(_, i, button, down) => SetButton(q, i, button, down)
    case PenAxisMoved(_, i, axis, value) => SetAxis(q, i, axis, value)
  }

  /** The record of an event that left the pen like this. */
  function RecordLeft(pen: Pen, e: InputEvent): PenEventRecord
    requires IsPenEvent(e)
  {
    RecordOf(KindOf(e), e.id, pen,
             if e.PenButtonChanged? then e.button else 0, e.PenButtonChanged? && e.down,
             if e.PenAxisMoved? then e.axis else 0, if e.PenAxisMoved? then e.value else 0.0)
  }

  function PensAfter(pens: map<nat, Pen>, e: InputEvent): map<nat, Pen> {
    if e.NextFrame? then PensNextFrame(pens)
    else if IsPenEvent(e) then
      var pen := PenLeft(PenOf(pens, e.id), e);
      pens[e.id := pen.(recentEvents := PushEvent(pen.recentEvents, RecordLeft(pen, e)))]
    else pens
  }

  /** Every record of each pen since it was tracked; a pen that is forgotten takes its records with it. */
  function LogAfter(log: map<nat, seq<PenEventRecord>>, pens: map<nat, Pen>, e: InputEvent)
    : map<nat, seq<PenEventRecord>>
  {
    if e.NextFrame? then map id | id in log && id in pens && PenStays(pens[id]) :: log[id]
    else if IsPenEvent(e) then log[e.id := RecordsOf(log, e.id) + [RecordLeft(PenLeft(PenOf(pens, e.id), e), e)]]
    else log
  }

  function GamepadsAfter(gamepads: map<nat, Gamepad>, e: InputEvent): map<nat, Gamepad>
    requires GamepadsOk(gamepads)
  {
    match e
    case NextFrame => GamepadsNextFrame(gamepads)
    case GamepadConnected(id, deviceIndex, timestamp) =>
      gamepads[id := Connect(GamepadOf(gamepads, id), deviceIndex, id, timestamp)]
    case GamepadDisconnected(id, _) => gamepads - {id}
    case GamepadButtonChanged(id, button, pressed, timestamp) =>
      gamepads[id := if button < MAX_BUTTONS then PressButton(GamepadOf(gamepads, id), button, pressed, id, timestamp)
                     else GamepadOf(gamepads, id)]
    case GamepadAxisMoved(id, axis, value, timestamp) =>
      gamepads[id := if axis < MAX_AXES then MoveAxis(GamepadOf(gamepads, id), axis, value, id, timestamp)
                     else GamepadOf(gamepads, id)]
    case _ => gamepads
  }

  /** An event of one kind of device leaves the others alone. */
  lemma OthersUntouched(t: Tracked, gamepads: map<nat, Gamepad>, e: InputEvent)
    requires GamepadsOk(gamepads) && !e.NextFrame?
    ensures !IsTouchEvent(e) ==> TouchesAfter(t.touches, e) == t.touches
    ensures !IsPenEvent(e) ==> PensAfter(t.pens, e) == t.pens && LogAfter(t.log, t.pens, e) == t.log
    ensures IsTouchEvent(e) || IsPenEvent(e) ==> GamepadsAfter(gamepads, e) == gamepads
  {
  }

  // ---------------------------------------------------------------------------------------------
  // What the devices say afterwards

  /** A contact event says all there is about the contact, except whether it was down in the last frame. */
  lemma TouchSays(touches: map<TouchContactId, TouchPoint>, e: InputEvent)
    requires IsTouchEvent(e)
    ensures var now := TouchesAfter(touches, e);
      && now.Keys == touches.Keys + {e.contact}
      && (forall id :: id in touches && id != e.contact ==> now[id] == touches[id])
      && var t := now[e.contact];
         && t.id == e.contact && t.x == e.c.x && t.y == e.c.y && t.dx == e.c.dx && t.dy == e.c.dy
         && t.pressure == e.c.pressure && t.timestamp == e.c.timestamp && (t.currentDown <==> !e.TouchUp?)
         && (t.previousDown <==> e.contact in touches && touches[e.contact].previousDown)
  {
  }

  /** A frame makes what was so now what was so before, and forgets the movements. */
  lemma FrameSays(touches: map<TouchContactId, TouchPoint>, pens: map<nat, Pen>, gamepads: map<nat, Gamepad>)
    requires GamepadsOk(gamepads)
    ensures var now := TouchesAfter(touches, NextFrame);
      forall id :: id in now ==>
        && (now[id].previousDown <==> touches[id].currentDown) && (now[id].currentDown <==> touches[id].currentDown)
        && now[id].dx == 0.0 && now[id].dy == 0.0 && now[id].x == touches[id].x && now[id].y == touches[id].y
    ensures var now := PensAfter(pens, NextFrame);
      forall id :: id in now ==>
        && (now[id].previousInRange <==> pens[id].currentInRange) && (now[id].previousDown <==> pens[id].currentDown)
        && now[id].previousButtons == pens[id].currentButtons && now[id].currentButtons == pens[id].currentButtons
        && now[id].xrel == 0.0 && now[id].yrel == 0.0 && now[id].recentEvents == pens[id].recentEvents
    ensures var now := GamepadsAfter(gamepads, NextFrame);
      forall id :: id in now ==>
        now[id].previousButtons == gamepads[id].currentButtons && now[id].currentButtons == gamepads[id].currentButtons
  {
  }

  /** A frame forgets the contacts that have been up, and the pens that have been away, for a frame. */
  lemma FrameForgets(touches: map<TouchContactId, TouchPoint>, pens: map<nat, Pen>, gamepads: map<nat, Gamepad>)
    requires GamepadsOk(gamepads)
    ensures forall id :: id in TouchesAfter(touches, NextFrame)
                    <==> id in touches && !(!touches[id].currentDown && !touches[id].previousDown)
    ensures forall id :: id in PensAfter(pens, NextFrame)
                    <==> id in pens && !(!pens[id].currentInRange && !pens[id].previousInRange
                                         && !pens[id].currentDown && !pens[id].previousDown)
    ensures GamepadsAfter(gamepads, NextFrame).Keys == gamepads.Keys
  {
  }

  /** An event other than proximity leaves the pen in range, where the event says; the movement is from where it was
      last, if it has been anywhere since it came into range. */
  lemma PenMovesTo(p: Pen, e: InputEvent)
    requires IsPenEvent(e) && !e.PenIn? && !e.PenOut? && PenShape(p)
    ensures var q := PenLeft(p, e);
      && q.x == e.i.x && q.y == e.i.y && q.hasPosition && q.currentInRange && q.timestamp == e.i.timestamp
      && q.flags == e.i.flags && q.penId == e.id
      && (if p.hasPosition then p.x + q.xrel == q.x && p.y + q.yrel == q.y else q.xrel == 0.0 && q.yrel == 0.0)
      && (q.currentDown <==> if e.PenTouched? then e.down else TipDown in e.i.flags)
      && (q.eraser <==> if e.PenTouched? then e.eraser else EraserTip in e.i.flags)
  {
  }

  /** Button n is down as the flags say, except the one that the event is about. */
  lemma PenButtonsSay(p: Pen, e: InputEvent, n: nat)
    requires IsPenEvent(e) && !e.PenIn? && !e.PenOut? && PenShape(p) && 1 <= n <= PEN_BUTTON_COUNT
    ensures var q := PenLeft(p, e);
      && |q.currentButtons| == PEN_BUTTON_COUNT
      && (q.currentButtons[n - 1] <==> if e.PenButtonChanged? && e.button == n then e.down
                                       else ButtonFlag(n) in e.i.flags)
  {
  }

  /** An axis event sets its axis, and nothing else sets any. */
  lemma PenAxesSay(p: Pen, e: InputEvent, n: nat)
    requires IsPenEvent(e) && !e.PenIn? && !e.PenOut? && PenShape(p) && n < PEN_AXIS_COUNT
    ensures var q := PenLeft(p, e);
      && |q.axes| == PEN_AXIS_COUNT
      && q.axes[n] == (if e.PenAxisMoved? && e.axis == n then e.value else p.axes[n])
      && (n in q.seenAxes <==> n in p.seenAxes || (e.PenAxisMoved? && e.axis == n))
  {
  }

  /** Proximity starts the pen afresh where it was. */
  lemma PenComesAndGoes(p: Pen, e: InputEvent)
    requires e.PenIn? || e.PenOut?
    ensures var q := PenLeft(p, e);
      && (q.currentInRange <==> e.PenIn?) && !q.currentDown && !q.hasPosition && q.flags == {} && q.seenAxes == {}
      && q.x == p.x && q.y == p.y && q.timestamp == e.timestamp && q.penId == e.id
      && (forall n :: 0 <= n < |q.axes| ==> q.axes[n] == 0.0)
      && (e.PenOut? ==> !q.eraser && forall n :: 0 <= n < |q.currentButtons| ==> !q.currentButtons[n])
  {
  }

  /** The last record of a pen shows the pen as the event left it. */
  lemma RecordShowsPen(t: Tracked, e: InputEvent)
    requires IsPenEvent(e)
    ensures var now := After(t, e);
      && e.id in now.log && now.log[e.id] != [] && e.id in now.pens
      && var r, q := now.log[e.id][|now.log[e.id]| - 1], now.pens[e.id];
         && r.penId == q.penId == e.id && r.kind == KindOf(e)
         && r.x == q.x && r.y == q.y && r.xrel == q.xrel && r.yrel == q.yrel && r.timestamp == q.timestamp
         && r.flags == q.flags && r.eraser == q.eraser && r.inRange == q.currentInRange && r.down == q.currentDown
         && r.axes == q.axes
         && (e.PenButtonChanged? ==> r.button == e.button && r.buttonDown == e.down)
         && (e.PenAxisMoved? ==> r.axis == e.axis && r.value == e.value)
  {
  }

  /** A button or an axis in range is set and no other, an axis within -1 and 1; the gamepad is connected. */
  lemma GamepadSays(gamepads: map<nat, Gamepad>, e: InputEvent, n: nat)
    requires GamepadsOk(gamepads)
    requires (e.GamepadButtonChanged? && e.button < MAX_BUTTONS) || (e.GamepadAxisMoved? && e.axis < MAX_AXES)
    ensures var was, g := GamepadOf(gamepads, e.id), GamepadsAfter(gamepads, e)[e.id];
      && g.connected && g.instanceId == e.id && g.timestamp == e.timestamp
      && |g.currentButtons| == MAX_BUTTONS && |g.axes| == MAX_AXES && g.previousButtons == was.previousButtons
      && (n < MAX_BUTTONS ==>
            g.currentButtons[n]
              == if e.GamepadButtonChanged? && e.button == n then e.pressed else was.currentButtons[n])
      && (n < MAX_AXES && !(e.GamepadAxisMoved? && e.axis == n) ==> g.axes[n] == was.axes[n])
    ensures e.GamepadAxisMoved? ==>
      var v := GamepadsAfter(gamepads, e)[e.id].axes[e.axis];
      -1.0 <= v <= 1.0 && (-1.0 <= e.value <= 1.0 ==> v == e.value) && (e.value > 1.0 ==> v == 1.0)
      && (e.value < -1.0 ==> v == -1.0)
  {
  }

  // ---------------------------------------------------------------------------------------------
  // Sequences of events

  /** The contacts and the pens that are tracked, and all the records of those pens. */
  datatype Tracked = Tracked(touches: map<TouchContactId, TouchPoint>, pens: map<nat, Pen>,
                             log: map<nat, seq<PenEventRecord>>)

  function After(t: Tracked, e: InputEvent): Tracked {
    Tracked(TouchesAfter(t.touches, e), PensAfter(t.pens, e), LogAfter(t.log, t.pens, e))
  }

  function AfterAll(t: Tracked, events: seq<InputEvent>): Tracked {
    if events == [] then t else After(AfterAll(t, events[..|events| - 1]), events[|events| - 1])
  }

  /** The contact is down before the first event and after every one. */
  ghost predicate DownThroughout(t: Tracked, events: seq<InputEvent>, id: Option<TouchContactId>) {
    forall k :: 0 <= k <= |events| ==> IsDown(AfterAll(t, events[..k]).touches, id)
  }

  /** The kinds of the events about a pen, in order. */
  function KindsAbout(events: seq<InputEvent>, id: nat): seq<PenEventType> {
    if events == [] then []
    else
      var last := events[|events| - 1];
      KindsAbout(events[..|events| - 1], id) + if IsPenEvent(last) && last.id == id then [KindOf(last)] else []
  }

  function Kinds(records: seq<PenEventRecord>): seq<PenEventType> {
    seq(|records|, i requires 0 <= i < |records| => records[i].kind)
  }

  /** No frame among the events forgets the pen. */
  ghost predicate NeverForgotten(t: Tracked, events: seq<InputEvent>, id: nat) {
    forall k :: 0 <= k < |events| && events[k].NextFrame? ==> KeepsPen(AfterAll(t, events[..k]).pens, id)
  }

  ghost predicate KeepsPen(pens: map<nat, Pen>, id: nat) {
    id in pens ==> PenStays(pens[id])
  }

  lemma LogStep(t: Tracked, e: InputEvent, id: nat)
    requires t.log.Keys == t.pens.Keys && (e.NextFrame? ==> KeepsPen(t.pens, id))
    ensures After(t, e).log.Keys == After(t, e).pens.Keys
    ensures Kinds(RecordsOf(After(t, e).log, id))
         == Kinds(RecordsOf(t.log, id)) + if IsPenEvent(e) && e.id == id then [KindOf(e)] else []
  {
  }

  lemma NeverForgottenBefore(t: Tracked, events: seq<InputEvent>, id: nat)
    requires events != [] && NeverForgotten(t, events, id)
    ensures NeverForgotten(t, events[..|events| - 1], id)
  {
    var init := events[..|events| - 1];
    forall k | 0 <= k < |init| && init[k].NextFrame? ensures KeepsPen(AfterAll(t, init[..k]).pens, id) {
      assert init[..k] == events[..k] && events[k] == init[k];
    }
  }

  lemma {:induction false} LogKeysFollow(t: Tracked, events: seq<InputEvent>)
    requires t.log.Keys == t.pens.Keys
    ensures AfterAll(t, events).log.Keys == AfterAll(t, events).pens.Keys
  {
    if events != [] { LogKeysFollow(t, events[..|events| - 1]); }
  }

  /** As long as no frame forgets a pen, its records are those of the events about it: all, in order. */
  lemma {:induction false} LogListsEvents(t: Tracked, events: seq<InputEvent>, id: nat)
    requires t.log.Keys == t.pens.Keys && NeverForgotten(t, events, id)
    ensures Kinds(RecordsOf(AfterAll(t, events).log, id)) == Kinds(RecordsOf(t.log, id)) + KindsAbout(events, id)
  {
    if events != [] {
      var init, last := events[..|events| - 1], events[|events| - 1];
      NeverForgottenBefore(t, events, id);
      LogListsEvents(t, init, id);
      LogKeysFollow(t, init);
      LogStep(AfterAll(t, init), last, id);
    }
  }

  /** The history of a pen with one more record: the oldest one goes when it is full. */
  function PushEvent(events: seq<PenEventRecord>, r: PenEventRecord): (after: seq<PenEventRecord>)
    ensures forall all :: events == LastN(all, PEN_EVENT_HISTORY_LIMIT) ==>
      after == LastN(all + [r], PEN_EVENT_HISTORY_LIMIT)
  {
    PushKeepsLast(events, r);
    (if |events| >= PEN_EVENT_HISTORY_LIMIT then events[1..] else events) + [r]
  }

  lemma PushKeepsLast(events: seq<PenEventRecord>, r: PenEventRecord)
    ensures forall all :: events == LastN(all, PEN_EVENT_HISTORY_LIMIT) ==>
      (if |events| >= PEN_EVENT_HISTORY_LIMIT then events[1..] else events) + [r]
        == LastN(all + [r], PEN_EVENT_HISTORY_LIMIT)
  {
  }

  class InputState {
    var touchPoints: map<TouchContactId, TouchPoint>
    var penStates: map<nat, Pen>
    var gamepadStates: map<nat, Gamepad>
    var primaryTouchId: Option<TouchContactId>
    var primaryPenId: nat
    var primaryGamepadId: nat
    ghost var log: map<nat, seq<PenEventRecord>>  // every event of a pen since it was tracked

    ghost predicate TouchesValid()
      reads this`touchPoints, this`primaryTouchId
    {
      PrimaryTouchOk(primaryTouchId, touchPoints)
    }

    ghost predicate PensValid()
      reads this`penStates, this`primaryPenId, this`log
    {
      PrimaryPenOk(primaryPenId, penStates) && PensOk(penStates, log)
    }

    ghost predicate GamepadsValid()
      reads this`gamepadStates, this`primaryGamepadId
    {
      PrimaryGamepadOk(primaryGamepadId, gamepadStates) && GamepadsOk(gamepadStates)
    }

    /** Holds after every sequence of events. */
    ghost predicate Valid()
      reads this
    {
      TouchesValid() && PensValid() && GamepadsValid()
    }

    constructor ()
      ensures Valid() && touchPoints == map[] && penStates == map[] && gamepadStates == map[]
    {
      touchPoints, penStates, gamepadStates := map[], map[], map[];
      primaryTouchId, primaryPenId, primaryGamepadId := None, 0, 0;
      log := map[];
    }

    // ---- frames

    /** Moves every device to the next frame. No primary device changes. */
    method BeginFrame()
      requires Valid()
      modifies this
      ensures Valid()
      ensures gamepadStates == GamepadsNextFrame(old(gamepadStates))
      ensures touchPoints == TouchesNextFrame(old(touchPoints)) && penStates == PensNextFrame(old(penStates))
      ensures unchanged(`primaryTouchId, `primaryPenId, `primaryGamepadId)
      ensures log == LogAfter(old(log), old(penStates), NextFrame)
    {
      FrameGamepads();
      FrameTouchState();
      FramePenState();
    }

    method FrameTouchState()
      requires TouchesValid()
      modifies this`touchPoints, this`primaryTouchId
      ensures TouchesValid() && touchPoints == TouchesNextFrame(old(touchPoints))
      ensures primaryTouchId == old(primaryTouchId)
    {
      FrameTouches();
      DropPrimaryTouchIfUp();
      AssignPrimaryTouchIfMissing(None);
      PrimaryTouchMovesOn(old(primaryTouchId), old(touchPoints), primaryTouchId, touchPoints);
    }

    method FramePenState()
      requires PensValid()
      modifies this`penStates, this`primaryPenId, this`log
      ensures PensValid() && penStates == PensNextFrame(old(penStates)) && primaryPenId == old(primaryPenId)
      ensures log == LogAfter(old(log), old(penStates), NextFrame)
    {
      FramePens();
      DropPrimaryPenIfAway();
      AssignPrimaryPenIfMissing(0);
      PrimaryPenMovesOn(old(primaryPenId), old(penStates), primaryPenId, penStates);
    }

    method FrameGamepads()
      requires GamepadsValid()
      modifies this`gamepadStates
      ensures GamepadsValid() && gamepadStates == GamepadsNextFrame(old(gamepadStates))
    {
      var todo := gamepadStates.Keys;
      while todo != {}
        invariant todo <= gamepadStates.Keys == old(gamepadStates).Keys
        invariant forall id :: id in gamepadStates ==>
          gamepadStates[id] == if id in todo then old(gamepadStates)[id] else GamepadNextFrame(old(gamepadStates)[id])
        decreases |todo|
      {
        var id :| id in todo;
        todo := todo - {id};
        gamepadStates := gamepadStates[id := GamepadNextFrame(gamepadStates[id])];
      }
    }

    /** Forgets the contacts that have been up for a frame, and moves the others on. */
    method FrameTouches()
      modifies this`touchPoints, this`primaryTouchId
      ensures touchPoints == TouchesNextFrame(old(touchPoints))
      ensures primaryTouchId == old(primaryTouchId)
           || (primaryTouchId == None && !IsDown(old(touchPoints), old(primaryTouchId)))
    {
      var todo := touchPoints.Keys;
      while todo != {}
        invariant todo <= touchPoints.Keys <= old(touchPoints).Keys
        invariant primaryTouchId == old(primaryTouchId)
               || (primaryTouchId == None && !IsDown(old(touchPoints), old(primaryTouchId)))
        invariant forall id :: id in old(touchPoints) ==>
          if id in todo then touchPoints[id] == old(touchPoints)[id]
          else if TouchStays(old(touchPoints)[id]) then
            id in touchPoints && touchPoints[id] == TouchNextFrame(old(touchPoints)[id])
          else id !in touchPoints
        decreases |todo|
      {
        var id :| id in todo;
        todo := todo - {id};
        if !touchPoints[id].currentDown && !touchPoints[id].previousDown {
          if primaryTouchId == Some(id) {
            primaryTouchId := None;
          }
          touchPoints := touchPoints - {id};
        } else {
          touchPoints := touchPoints[id := TouchNextFrame(touchPoints[id])];
        }
      }
    }

    method DropPrimaryTouchIfUp()
      modifies this`primaryTouchId
      ensures primaryTouchId == if IsDown(touchPoints, old(primaryTouchId)) then old(primaryTouchId) else None
    {
      if primaryTouchId.Some?
         && (primaryTouchId.value !in touchPoints || !touchPoints[primaryTouchId.value].currentDown) {
        primaryTouchId := None;
      }
    }

    /** Forgets the pens that have been away for a frame, and moves the others on. */
    method FramePens()
      modifies this`penStates, this`primaryPenId, this`log
      ensures penStates == PensNextFrame(old(penStates))
      ensures primaryPenId == old(primaryPenId) || (primaryPenId == 0 && !InRange(old(penStates), old(primaryPenId)))
      ensures log == map id | id in old(log) && id in penStates :: old(log)[id]
    {
      var todo := penStates.Keys;
      while todo != {}
        invariant todo <= penStates.Keys <= old(penStates).Keys && log == old(log)
        invariant primaryPenId == old(primaryPenId)
               || (primaryPenId == 0 && !InRange(old(penStates), old(primaryPenId)))
        invariant forall id :: id in old(penStates) ==>
          if id in todo then penStates[id] == old(penStates)[id]
          else if PenStays(old(penStates)[id]) then
            id in penStates && penStates[id] == PenNextFrame(old(penStates)[id])
          else id !in penStates
        decreases |todo|
      {
        var id :| id in todo;
        todo := todo - {id};
        if !PenStays(penStates[id]) {
          if primaryPenId == id {
            primaryPenId := 0;
          }
          penStates := penStates - {id};
        } else {
          penStates := penStates[id := PenNextFrame(penStates[id])];
        }
      }
      log := map id | id in log && id in penStates :: log[id];
    }

    method DropPrimaryPenIfAway()
      modifies this`primaryPenId
      ensures primaryPenId == if InRange(penStates, old(primaryPenId)) then old(primaryPenId) else 0
    {
      if primaryPenId != 0 && (primaryPenId !in penStates || !penStates[primaryPenId].currentInRange) {
        primaryPenId := 0;
      }
    }

    // ---- touch

    /** Any contact that is down, the preferred one first. */
    method AssignPrimaryTouchIfMissing(preferred: Option<TouchContactId>)
      modifies this`primaryTouchId
      ensures TouchesValid()
      ensures IsDown(touchPoints, old(primaryTouchId)) ==> primaryTouchId == old(primaryTouchId)
    {
      if primaryTouchId.Some? && primaryTouchId.value in touchPoints && touchPoints[primaryTouchId.value].currentDown {
        return;
      }
      if preferred.Some? && ValidContact(preferred.value) {
        if preferred.value in touchPoints && touchPoints[preferred.value].currentDown {
          primaryTouchId := preferred;
          return;
        }
      }
      if exists id :: id in touchPoints && touchPoints[id].currentDown {
        var id :| id in touchPoints && touchPoints[id].currentDown;
        primaryTouchId := Some(id);
        return;
      }
      primaryTouchId := None;
    }

    function EnsuredTouch(id: TouchContactId): TouchPoint
      reads this`touchPoints
    {
      TouchOf(touchPoints, id)
    }

    /** A contact goes down, or moves, which also means that it is down. A primary contact stays primary. */
    method OnTouchDown(id: TouchContactId, c: Contact)
      requires Valid()
      modifies this`touchPoints, this`primaryTouchId
      ensures Valid() && touchPoints == old(touchPoints)[id := SetContact(old(EnsuredTouch(id)), id, c, true)]
      ensures primaryTouchId == if old(primaryTouchId).Some? then old(primaryTouchId) else Some(id)
    {
      touchPoints := touchPoints[id := SetContact(EnsuredTouch(id), id, c, true)];
      AssignPrimaryTouchIfMissing(Some(id));
      OnlyDownIsPrimary(old(primaryTouchId), old(touchPoints), id, primaryTouchId, touchPoints);
    }

    method OnTouchMotion(id: TouchContactId, c: Contact)
      requires Valid()
      modifies this`touchPoints, this`primaryTouchId
      ensures Valid() && touchPoints == old(touchPoints)[id := SetContact(old(EnsuredTouch(id)), id, c, true)]
      ensures primaryTouchId == if old(primaryTouchId).Some? then old(primaryTouchId) else Some(id)
    {
      touchPoints := touchPoints[id := SetContact(EnsuredTouch(id), id, c, true)];
      AssignPrimaryTouchIfMissing(Some(id));
      OnlyDownIsPrimary(old(primaryTouchId), old(touchPoints), id, primaryTouchId, touchPoints);
    }

    /** The primary passes to another contact only when the primary contact itself goes up. */
    method OnTouchUp(id: TouchContactId, c: Contact)
      requires Valid()
      modifies this`touchPoints, this`primaryTouchId
      ensures Valid() && touchPoints == old(touchPoints)[id := SetContact(old(EnsuredTouch(id)), id, c, false)]
      ensures old(primaryTouchId) != Some(id) ==> primaryTouchId == old(primaryTouchId)
    {
      touchPoints := touchPoints[id := SetContact(EnsuredTouch(id), id, c, false)];
      if primaryTouchId == Some(id) {
        primaryTouchId := None;
        AssignPrimaryTouchIfMissing(None);
      }
    }

    // ---- pens

    method AssignPrimaryPenIfMissing(preferredId: nat)
      requires 0 !in penStates
      modifies this`primaryPenId
      ensures PrimaryPenOk(primaryPenId, penStates)
      ensures InRange(penStates, old(primaryPenId)) ==> primaryPenId == old(primaryPenId)
    {
      if primaryPenId != 0 && primaryPenId in penStates && penStates[primaryPenId].currentInRange {
        return;
      }
      if preferredId != 0 && preferredId in penStates && penStates[preferredId].currentInRange {
        primaryPenId := preferredId;
        return;
      }
      if exists id :: id in penStates && penStates[id].currentInRange {
        var id :| id in penStates && penStates[id].currentInRange;
        primaryPenId := id;
        return;
      }
      primaryPenId := 0;
    }

    function EnsuredPen(id: nat): Pen
      reads this`penStates
    {
      PenOf(penStates, id)
    }

    ghost function EnsuredLog(id: nat): seq<PenEventRecord>
      reads this`log
    {
      RecordsOf(log, id)
    }

    /** Stores a pen as an event left it, with the record of that event. */
    method StorePen(id: nat, pen: Pen, r: PenEventRecord)
      requires PensValid() && id != 0 && PenShape(pen) && pen.recentEvents == EnsuredPen(id).recentEvents
      modifies this`penStates, this`log
      ensures 0 !in penStates && PensOk(penStates, log)
      ensures penStates == old(penStates)[id := pen.(recentEvents := PushEvent(pen.recentEvents, r))]
      ensures log == old(log)[id := old(EnsuredLog(id)) + [r]]
    {
      penStates := penStates[id := pen.(recentEvents := PushEvent(pen.recentEvents, r))];
      log := log[id := EnsuredLog(id) + [r]];
    }

    /** What every pen event but the last does: the pen is in range, and becomes the primary one. */
    method StorePrimaryPen(id: nat, pen: Pen, r: PenEventRecord)
      requires PensValid() && id != 0 && PenShape(pen) && pen.recentEvents == EnsuredPen(id).recentEvents
      requires pen.currentInRange
      modifies this`penStates, this`log, this`primaryPenId
      ensures PensValid() && primaryPenId == id
      ensures penStates == old(penStates)[id := pen.(recentEvents := PushEvent(pen.recentEvents, r))]
      ensures log == old(log)[id := old(EnsuredLog(id)) + [r]]
    {
      StorePen(id, pen, r);
      primaryPenId := id;
    }

    /** The pen that an event is about is well formed. */
    lemma EnsuredShape(id: nat)
      requires PensValid()
      ensures PenShape(EnsuredPen(id).(penId := id))
    {
    }

    lemma ButtonShape(p: Pen, i: PenInput, button: nat, down: bool)
      requires PenShape(p)
      ensures PenShape(SetButton(p, i, button, down)) && SetButton(p, i, button, down).currentInRange
      ensures SetButton(p, i, button, down).recentEvents == p.recentEvents
    {
    }

    lemma AxisShape(p: Pen, i: PenInput, axis: nat, value: real)
      requires PenShape(p)
      ensures PenShape(SetAxis(p, i, axis, value)) && SetAxis(p, i, axis, value).currentInRange
      ensures SetAxis(p, i, axis, value).recentEvents == p.recentEvents
    {
    }

    method OnPenProximityIn(id: nat, timestamp: nat)
      requires Valid() && id != 0
      modifies this`penStates, this`log, this`primaryPenId
      ensures Valid() && primaryPenId == id
      ensures var pen := SetProximity(old(EnsuredPen(id)).(penId := id), true, timestamp);
        var r := RecordOf(ProximityIn, id, pen, 0, false, 0, 0.0);
        && penStates == old(penStates)[id := pen.(recentEvents := PushEvent(pen.recentEvents, r))]
        && log == old(log)[id := old(EnsuredLog(id)) + [r]]
    {
      EnsuredShape(id);
      var pen := SetProximity(EnsuredPen(id).(penId := id), true, timestamp);
      StorePrimaryPen(id, pen, RecordOf(ProximityIn, id, pen, 0, false, 0, 0.0));
    }

    /** The primary pen changes only if it is the one that leaves. */
    method OnPenProximityOut(id: nat, timestamp: nat)
      requires Valid() && id != 0
      modifies this`penStates, this`log, this`primaryPenId
      ensures Valid()
      ensures primaryPenId != id && (old(primaryPenId) != id ==> primaryPenId == old(primaryPenId))
      ensures var pen := SetProximity(old(EnsuredPen(id)).(penId := id), false, timestamp);
        var r := RecordOf(ProximityOut, id, pen, 0, false, 0, 0.0);
        && penStates == old(penStates)[id := pen.(recentEvents := PushEvent(pen.recentEvents, r))]
        && log == old(log)[id := old(EnsuredLog(id)) + [r]]
    {
      EnsuredShape(id);
      var pen := SetProximity(EnsuredPen(id).(penId := id), false, timestamp);
      StorePen(id, pen, RecordOf(ProximityOut, id, pen, 0, false, 0, 0.0));
      if primaryPenId == id {
        primaryPenId := 0;
        AssignPrimaryPenIfMissing(0);
      }
    }

    method OnPenMotion(id: nat, i: PenInput)
      requires Valid() && id != 0
      modifies this`penStates, this`log, this`primaryPenId
      ensures Valid() && primaryPenId == id
      ensures var pen := SetMotion(old(EnsuredPen(id)).(penId := id), i);
        var r := RecordOf(Motion, id, pen, 0, false, 0, 0.0);
        && penStates == old(penStates)[id := pen.(recentEvents := PushEvent(pen.recentEvents, r))]
        && log == old(log)[id := old(EnsuredLog(id)) + [r]]
    {
      EnsuredShape(id);
      var pen := SetMotion(EnsuredPen(id).(penId := id), i);
      StorePrimaryPen(id, pen, RecordOf(Motion, id, pen, 0, false, 0, 0.0));
    }

    method OnPenDown(id: nat, i: PenInput, eraser: bool)
      requires Valid() && id != 0
      modifies this`penStates, this`log, this`primaryPenId
      ensures Valid() && primaryPenId == id
      ensures var pen := SetTouch(old(EnsuredPen(id)).(penId := id), i, eraser, true);
        var r := RecordOf(Down, id, pen, 0, false, 0, 0.0);
        && penStates == old(penStates)[id := pen.(recentEvents := PushEvent(pen.recentEvents, r))]
        && log == old(log)[id := old(EnsuredLog(id)) + [r]]
    {
      EnsuredShape(id);
      var pen := SetTouch(EnsuredPen(id).(penId := id), i, eraser, true);
      StorePrimaryPen(id, pen, RecordOf(Down, id, pen, 0, false, 0, 0.0));
    }

    method OnPenUp(id: nat, i: PenInput, eraser: bool)
      requires Valid() && id != 0
      modifies this`penStates, this`log, this`primaryPenId
      ensures Valid() && primaryPenId == id
      ensures var pen := SetTouch(old(EnsuredPen(id)).(penId := id), i, eraser, false);
        var r := RecordOf(Up, id, pen, 0, false, 0, 0.0);
        && penStates == old(penStates)[id := pen.(recentEvents := PushEvent(pen.recentEvents, r))]
        && log == old(log)[id := old(EnsuredLog(id)) + [r]]
    {
      EnsuredShape(id);
      var pen := SetTouch(EnsuredPen(id).(penId := id), i, eraser, false);
      StorePrimaryPen(id, pen, RecordOf(Up, id, pen, 0, false, 0, 0.0));
    }

    method OnPenButton(id: nat, i: PenInput, button: nat, down: bool)
      requires Valid() && id != 0
      modifies this`penStates, this`log, this`primaryPenId
      ensures Valid() && primaryPenId == id
      ensures var pen := SetButton(old(EnsuredPen(id)).(penId := id), i, button, down);
        var kind := if down then ButtonDown else ButtonUp;
        var r := RecordOf(kind, id, pen, button, down, 0, 0.0);
        && penStates == old(penStates)[id := pen.(recentEvents := PushEvent(pen.recentEvents, r))]
        && log == old(log)[id := old(EnsuredLog(id)) + [r]]
    {
      EnsuredShape(id);
      ButtonShape(EnsuredPen(id).(penId := id), i, button, down);
      var pen := SetButton(EnsuredPen(id).(penId := id), i, button, down);
      StorePrimaryPen(id, pen, RecordOf(if down then ButtonDown else ButtonUp, id, pen, button, down, 0, 0.0));
    }

    method OnPenAxis(id: nat, i: PenInput, axis: nat, value: real)
      requires Valid() && id != 0
      modifies this`penStates, this`log, this`primaryPenId
      ensures Valid() && primaryPenId == id
      ensures var pen := SetAxis(old(EnsuredPen(id)).(penId := id), i, axis, value);
        var r := RecordOf(Axis, id, pen, 0, false, axis, value);
        && penStates == old(penStates)[id := pen.(recentEvents := PushEvent(pen.recentEvents, r))]
        && log == old(log)[id := old(EnsuredLog(id)) + [r]]
    {
      EnsuredShape(id);
      AxisShape(EnsuredPen(id).(penId := id), i, axis, value);
      var pen := SetAxis(EnsuredPen(id).(penId := id), i, axis, value);
      StorePrimaryPen(id, pen, RecordOf(Axis, id, pen, 0, false, axis, value));
    }

    // ---- gamepads

    method AssignPrimaryIfMissing(preferredId: nat)
      requires 0 !in gamepadStates
      requires primaryGamepadId != 0 && primaryGamepadId in gamepadStates ==> gamepadStates[primaryGamepadId].connected
      requires preferredId != 0 && preferredId in gamepadStates ==> gamepadStates[preferredId].connected
      modifies this`primaryGamepadId
      ensures PrimaryGamepadOk(primaryGamepadId, gamepadStates)
      ensures old(primaryGamepadId != 0 && primaryGamepadId in gamepadStates) ==>
        primaryGamepadId == old(primaryGamepadId)
    {
      if primaryGamepadId != 0 && primaryGamepadId in gamepadStates {
        return;
      }
      if preferredId != 0 && preferredId in gamepadStates {
        primaryGamepadId := preferredId;
        return;
      }
      if exists id :: id in gamepadStates && gamepadStates[id].connected {
        var id :| id in gamepadStates && gamepadStates[id].connected;
        primaryGamepadId := id;
        return;
      }
      primaryGamepadId := 0;
    }

    function EnsuredGamepad(id: nat): Gamepad
      reads this`gamepadStates
    {
      GamepadOf(gamepadStates, id)
    }

    /** The first gamepad to connect becomes the primary one. */
    method OnGamepadConnected(deviceIndex: int, id: nat, timestamp: nat)
      requires Valid() && id != 0
      modifies this`gamepadStates, this`primaryGamepadId
      ensures Valid()
      ensures gamepadStates == old(gamepadStates)[id := Connect(old(EnsuredGamepad(id)), deviceIndex, id, timestamp)]
      ensures primaryGamepadId == if old(primaryGamepadId) != 0 then old(primaryGamepadId) else id
    {
      gamepadStates := gamepadStates[id := Connect(EnsuredGamepad(id), deviceIndex, id, timestamp)];
      AssignPrimaryIfMissing(id);
    }

    method OnGamepadDisconnected(id: nat, timestamp: nat)
      requires Valid() && id != 0
      modifies this`gamepadStates, this`primaryGamepadId
      ensures Valid() && gamepadStates == old(gamepadStates) - {id}
      ensures primaryGamepadId != id && (old(primaryGamepadId) != id ==> primaryGamepadId == old(primaryGamepadId))
    {
      if id in gamepadStates {
        gamepadStates := gamepadStates - {id};
      }
      if primaryGamepadId == id {
        primaryGamepadId := 0;
        AssignPrimaryIfMissing(0);
      }
    }

    /** A button out of range is an error; it leaves the gamepad tracked but not connected, and the primary one
        as it was. */
    method OnGamepadButton(button: nat, pressed: bool, id: nat, timestamp: nat) returns (ok: bool)
      requires Valid() && id != 0
      modifies this`gamepadStates, this`primaryGamepadId
      ensures Valid() && (ok <==> button < MAX_BUTTONS)
      ensures ok ==> primaryGamepadId == id
      ensures ok ==>
        gamepadStates == old(gamepadStates)[id := PressButton(old(EnsuredGamepad(id)), button, pressed, id, timestamp)]
      ensures !ok ==> primaryGamepadId == old(primaryGamepadId)
      ensures !ok ==> gamepadStates == old(gamepadStates)[id := old(EnsuredGamepad(id))]
    {
      var gamepad := EnsuredGamepad(id);
      gamepadStates := gamepadStates[id := gamepad];
      if button >= MAX_BUTTONS {
        return false;
      }
      PressedOk(gamepadStates, gamepad, button, pressed, id, timestamp);
      gamepadStates := gamepadStates[id := PressButton(gamepad, button, pressed, id, timestamp)];
      primaryGamepadId := id;
      ok := true;
    }

    method OnGamepadAxis(axis: nat, value: real, id: nat, timestamp: nat) returns (ok: bool)
      requires Valid() && id != 0
      modifies this`gamepadStates, this`primaryGamepadId
      ensures Valid() && (ok <==> axis < MAX_AXES)
      ensures ok ==> primaryGamepadId == id
      ensures ok ==>
        gamepadStates == old(gamepadStates)[id := MoveAxis(old(EnsuredGamepad(id)), axis, value, id, timestamp)]
      ensures !ok ==> primaryGamepadId == old(primaryGamepadId)
      ensures !ok ==> gamepadStates == old(gamepadStates)[id := old(EnsuredGamepad(id))]
    {
      var gamepad := EnsuredGamepad(id);
      gamepadStates := gamepadStates[id := gamepad];
      if axis >= MAX_AXES {
        return false;
      }
      gamepadStates := gamepadStates[id := MoveAxis(gamepad, axis, value, id, timestamp)];
      primaryGamepadId := id;
      ok := true;
    }

    // ---- event sequences

    ghost function Seen(): Tracked
      reads this`touchPoints, this`penStates, this`log
    {
      Tracked(touchPoints, penStates, log)
    }

    /** Handles one event. A primary contact that is still down afterwards is still primary. */
    method Handle(e: InputEvent)
      requires Valid() && HasId(e)
      modifies this
      ensures Valid()
      ensures touchPoints == TouchesAfter(old(touchPoints), e)
      ensures penStates == PensAfter(old(penStates), e) && log == LogAfter(old(log), old(penStates), e)
      ensures gamepadStates == GamepadsAfter(old(gamepadStates), e)
      ensures IsDown(touchPoints, old(primaryTouchId)) ==> primaryTouchId == old(primaryTouchId)
    {
      if e.NextFrame? {
        BeginFrame();
      } else if IsTouchEvent(e) {
        HandleTouch(e);
      } else if IsPenEvent(e) {
        OthersUntouched(Seen(), gamepadStates, e);
        HandlePen(e);
      } else {
        HandleGamepad(e);
      }
    }

    method HandleTouch(e: InputEvent)
      requires Valid() && IsTouchEvent(e)
      modifies this`touchPoints, this`primaryTouchId
      ensures Valid() && touchPoints == TouchesAfter(old(touchPoints), e)
      ensures penStates == PensAfter(penStates, e) && log == LogAfter(log, penStates, e)
      ensures gamepadStates == GamepadsAfter(gamepadStates, e)
      ensures IsDown(touchPoints, old(primaryTouchId)) ==> primaryTouchId == old(primaryTouchId)
    {
      OthersUntouched(Seen(), gamepadStates, e);
      match e
      case TouchDown(id, c) => OnTouchDown(id, c);
      case TouchMotion(id, c) => OnTouchMotion(id, c);
      case TouchUp(id, c) => OnTouchUp(id, c);
    }

    method HandlePen(e: InputEvent)
      requires Valid() && IsPenEvent(e) && e.id != 0
      modifies this`penStates, this`log, this`primaryPenId
      ensures Valid()
      ensures penStates == PensAfter(old(penStates), e) && log == LogAfter(old(log), old(penStates), e)
    {
      match e
      case PenIn(id, timestamp) => OnPenProximityIn(id, timestamp);
      case PenOut(id, timestamp) => OnPenProximityOut(id, timestamp);
      case PenMoved(id, i) => OnPenMotion(id, i);
      case PenTouched(id, i, eraser, down) =>
        if down { OnPenDown(id, i, eraser); } else { OnPenUp(id, i, eraser); }
      case PenButtonChanged(id, i, button, down) => OnPenButton(id, i, button, down);
      case PenAxisMoved(id, i, axis, value) => OnPenAxis(id, i, axis, value);
    }

    method HandleGamepad(e: InputEvent)
      requires Valid() && HasId(e) && !e.NextFrame? && !IsTouchEvent(e) && !IsPenEvent(e)
      modifies this`gamepadStates, this`primaryGamepadId
      ensures Valid() && gamepadStates == GamepadsAfter(old(gamepadStates), e)
      ensures touchPoints == TouchesAfter(touchPoints, e)
      ensures penStates == PensAfter(penStates, e) && log == LogAfter(log, penStates, e)
    {
      OthersUntouched(Seen(), gamepadStates, e);
      match e
      case GamepadConnected(id, deviceIndex, timestamp) => OnGamepadConnected(deviceIndex, id, timestamp);
      case GamepadDisconnected(id, timestamp) => OnGamepadDisconnected(id, timestamp);
      case GamepadButtonChanged(id, button, pressed, timestamp) =>
        var _ := OnGamepadButton(button, pressed, id, timestamp);
      case GamepadAxisMoved(id, axis, value, timestamp) =>
        var _ := OnGamepadAxis(axis, value, id, timestamp);
    }

    /** Handles a sequence of events. A primary contact that stays down throughout stays primary; each pen's
        history is the last 128 of its records since it was tracked. */
    method Replay(events: seq<InputEvent>)
      requires Valid() && forall e :: e in events ==> HasId(e)
      modifies this
      ensures Valid() && Seen() == AfterAll(old(Seen()), events)
      ensures DownThroughout(old(Seen()), events, old(primaryTouchId)) ==> primaryTouchId == old(primaryTouchId)
      ensures forall id :: id in penStates ==>
        penStates[id].recentEvents == LastN(AfterAll(old(Seen()), events).log[id], PEN_EVENT_HISTORY_LIMIT)
    {
      for k := 0 to |events|
        invariant Valid() && Seen() == AfterAll(old(Seen()), events[..k])
        invariant DownThroughout(old(Seen()), events[..k], old(primaryTouchId)) ==>
          primaryTouchId == old(primaryTouchId)
      {
        assert events[..k + 1][..k] == events[..k];
        DownBefore(old(Seen()), events[..k + 1], old(primaryTouchId));
        Handle(events[k]);
      }
      assert events[..|events|] == events;
    }
  }

  lemma DownBefore(t: Tracked, events: seq<InputEvent>, id: Option<TouchContactId>)
    requires events != []
    ensures DownThroughout(t, events, id) ==>
      DownThroughout(t, events[..|events| - 1], id) && IsDown(AfterAll(t, events).touches, id)
  {
    if DownThroughout(t, events, id) {
      var init := events[..|events| - 1];
      assert events[..|events|] == events;
      forall k | 0 <= k <= |init| ensures IsDown(AfterAll(t, init[..k]).touches, id) {
        assert init[..k] == events[..k];
      }
    }
  }
}
