/**
 * The unified input event of the Python SDK (InputTypes.py): the event kinds,
 * the logical button keys, knob identifiers and directions, and the field
 * checks `InputEvent.__post_init__` performs when an event is built.
 */
module InputTypes {
  import opened Common

  datatype EventType = Button | KnobRotate | KnobPress | Swipe | Unknown

  /** `ButtonKey` is an IntEnum with members KEY_1 .. KEY_32 of value 1 .. 32. */
  type ButtonKey = k: int | 1 <= k <= 32 witness 1

  datatype KnobId = Knob1 | Knob2 | Knob3 | Knob4

  datatype Direction = Left | Right

  /** The dataclass fields; `None` stands for Python's `None` default. */
  datatype InputEvent = InputEvent(
    eventType: EventType,
    key: Option<ButtonKey>,
    knobId: Option<KnobId>,
    direction: Option<Direction>,
    state: int)

  /** `ButtonKey(v)`: the enum lookup by value, which raises ValueError for a value with no member. */
  function ButtonKeyOf(v: int): (r: Result<ButtonKey>)
    ensures r.Ok? <==> 1 <= v <= 32
    ensures r.Ok? ==> r.value as int == v
  {
    if 1 <= v <= 32 then Ok(v) else Err("not a valid ButtonKey")
  }

  /** What a constructed event must satisfy: the declarative reading of the checks. */
  predicate WellFormed(e: InputEvent)
  {
    && (e.eventType == Button ==> e.key.Some?)
    && (e.eventType == KnobRotate || e.eventType == KnobPress ==> e.knobId.Some?)
    && (e.eventType == KnobRotate ==> e.direction.Some?)
    && (e.eventType == Swipe ==> e.direction.Some?)
  }

  /**
   * Building an `InputEvent`: the checks of `__post_init__` in their order,
   * each failing check raising ValueError.
   */
  function NewInputEvent(eventType: EventType, key: Option<ButtonKey>, knobId: Option<KnobId>,
                         direction: Option<Direction>, state: int): (r: Result<InputEvent>)
    ensures r.Ok? <==> WellFormed(InputEvent(eventType, key, knobId, direction, state))
    ensures r.Ok? ==> r.value == InputEvent(eventType, key, knobId, direction, state)
  {
    if eventType == Button then
      if key.None? then Err("BUTTON event requires key")
      else Ok(InputEvent(eventType, key, knobId, direction, state))
    else if eventType == KnobRotate || eventType == KnobPress then
      if knobId.None? then Err("KNOB event requires knob_id")
      else if eventType == KnobRotate && direction.None? then Err("KNOB_ROTATE event requires direction")
      else Ok(InputEvent(eventType, key, knobId, direction, state))
    else if eventType == Swipe then
      if direction.None? then Err("SWIPE event requires direction")
      else Ok(InputEvent(eventType, key, knobId, direction, state))
    else
      Ok(InputEvent(eventType, key, knobId, direction, state))
  }

  // The keyword-argument forms the device decoders use; every omitted field
  // takes its dataclass default (None, and state 0).

  function ButtonEvent(key: ButtonKey, state: int): InputEvent
  {
    InputEvent(Button, Some(key), None, None, state)
  }

  function KnobRotateEvent(knob: KnobId, dir: Direction): InputEvent
  {
    InputEvent(KnobRotate, None, Some(knob), Some(dir), 0)
  }

  function KnobPressEvent(knob: KnobId, state: int): InputEvent
  {
    InputEvent(KnobPress, None, Some(knob), None, state)
  }

  function SwipeEvent(dir: Direction): InputEvent
  {
    InputEvent(Swipe, None, None, Some(dir), 0)
  }

  function UnknownEvent(): InputEvent
  {
    InputEvent(Unknown, None, None, None, 0)
  }

  /** The state byte of a report becomes 1 when it is 0x01 and 0 otherwise. */
  function NormalizeState(state: int): (s: int)
    ensures s == 0 || s == 1
    ensures s == 1 <==> state == 0x01
  {
    if state == 0x01 then 1 else 0
  }

  /** A BUTTON event cannot be built without a key; with one it always builds. */
  lemma ButtonNeedsKey(key: Option<ButtonKey>, knobId: Option<KnobId>, direction: Option<Direction>, state: int)
    ensures NewInputEvent(Button, key, knobId, direction, state).Ok? <==> key.Some?
  {
  }

  /** Knob events need a knob id; a rotation also needs a direction, a press does not. */
  lemma KnobEventsNeedKnob(key: Option<ButtonKey>, knobId: Option<KnobId>, direction: Option<Direction>, state: int)
    ensures NewInputEvent(KnobPress, key, knobId, direction, state).Ok? <==> knobId.Some?
    ensures NewInputEvent(KnobRotate, key, knobId, direction, state).Ok? <==> knobId.Some? && direction.Some?
  {
  }

  /** A SWIPE event needs a direction. */
  lemma SwipeNeedsDirection(key: Option<ButtonKey>, knobId: Option<KnobId>, direction: Option<Direction>, state: int)
    ensures NewInputEvent(Swipe, key, knobId, direction, state).Ok? <==> direction.Some?
  {
  }

  /** Every shorthand constructor yields an event that passes the checks; UNKNOWN needs no field. */
  lemma ShorthandsAreWellFormed(key: ButtonKey, knob: KnobId, dir: Direction, state: int)
    ensures WellFormed(ButtonEvent(key, state))
    ensures WellFormed(KnobRotateEvent(knob, dir)) && KnobRotateEvent(knob, dir).state == 0
    ensures WellFormed(KnobPressEvent(knob, state))
    ensures WellFormed(SwipeEvent(dir)) && SwipeEvent(dir).state == 0
    ensures NewInputEvent(Unknown, None, None, None, 0) == Ok(UnknownEvent())
  {
  }
}
