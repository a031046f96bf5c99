/** The five integer enumerations of the device protocol. Python's
    `Enum(value)` constructor is modelled by a `FromInt` that returns `None`
    where the constructor raises `ValueError`, and `.value` by `ToInt`. */
module Enums {

  import opened Wrappers

  /** Event type ids of the SSE stream (`Nanoleaf.EventType`). */
  datatype EventType = State | Layout | Effect | Touch

  function EventTypeToInt(t: EventType): (n: int)
    ensures 1 <= n <= 4
  {
    match t
    case State => 1
    case Layout => 2
    case Effect => 3
    case Touch => 4
  }

  function EventTypeFromInt(n: int): (r: Option<EventType>)
    ensures r.Some? <==> 1 <= n <= 4
    ensures r.Some? ==> EventTypeToInt(r.value) == n
  {
    if n == 1 then Some(State)
    else if n == 2 then Some(Layout)
    else if n == 3 then Some(Effect)
    else if n == 4 then Some(Touch)
    else None
  }

  lemma EventTypeRoundTrip(t: EventType)
    ensures EventTypeFromInt(EventTypeToInt(t)) == Some(t)
  {
  }

  /** State attributes of a STATE event (`Nanoleaf.EventState`). */
  datatype EventState = Power | Brightness | Hue | Saturation | ColorTemp | ColorMode

  function EventStateToInt(s: EventState): (n: int)
    ensures 1 <= n <= 6
  {
    match s
    case Power => 1
    case Brightness => 2
    case Hue => 3
    case Saturation => 4
    case ColorTemp => 5
    case ColorMode => 6
  }

  function EventStateFromInt(n: int): (r: Option<EventState>)
    ensures r.Some? <==> 1 <= n <= 6
    ensures r.Some? ==> EventStateToInt(r.value) == n
  {
    if n == 1 then Some(Power)
    else if n == 2 then Some(Brightness)
    else if n == 3 then Some(Hue)
    else if n == 4 then Some(Saturation)
    else if n == 5 then Some(ColorTemp)
    else if n == 6 then Some(ColorMode)
    else None
  }

  lemma EventStateRoundTrip(s: EventState)
    ensures EventStateFromInt(EventStateToInt(s)) == Some(s)
  {
  }

  /** Layout attributes of a LAYOUT event (`Nanoleaf.EventLayout`). */
  datatype EventLayout = Panels | Orientation

  function EventLayoutToInt(l: EventLayout): (n: int)
    ensures 1 <= n <= 2
  {
    match l
    case Panels => 1
    case Orientation => 2
  }

  function EventLayoutFromInt(n: int): (r: Option<EventLayout>)
    ensures r.Some? <==> 1 <= n <= 2
    ensures r.Some? ==> EventLayoutToInt(r.value) == n
  {
    if n == 1 then Some(Panels)
    else if n == 2 then Some(Orientation)
    else None
  }

  lemma EventLayoutRoundTrip(l: EventLayout)
    ensures EventLayoutFromInt(EventLayoutToInt(l)) == Some(l)
  {
  }

  /** Coarse gestures of a TOUCH event (`Nanoleaf.EventGesture`). */
  datatype EventGesture = TapSingle | TapDouble | SwipeUp | SwipeDown | SwipeLeft | SwipeRight | Hold

  function EventGestureToInt(g: EventGesture): (n: int)
    ensures 0 <= n <= 6
  {
    match g
    case TapSingle => 0
    case TapDouble => 1
    case SwipeUp => 2
    case SwipeDown => 3
    case SwipeLeft => 4
    case SwipeRight => 5
    case Hold => 6
  }

  function EventGestureFromInt(n: int): (r: Option<EventGesture>)
    ensures r.Some? <==> 0 <= n <= 6
    ensures r.Some? ==> EventGestureToInt(r.value) == n
  {
    if n == 0 then Some(TapSingle)
    else if n == 1 then Some(TapDouble)
    else if n == 2 then Some(SwipeUp)
    else if n == 3 then Some(SwipeDown)
    else if n == 4 then Some(SwipeLeft)
    else if n == 5 then Some(SwipeRight)
    else if n == 6 then Some(Hold)
    else None
  }

  lemma EventGestureRoundTrip(g: EventGesture)
    ensures EventGestureFromInt(EventGestureToInt(g)) == Some(g)
  {
  }

  /** Fine touch phases of a UDP touch record (`Nanoleaf.EventTouch`);
      `Tap` (5) is undocumented by the vendor but decodable. */
  datatype EventTouch = HoverPhase | DownPhase | HoldPhase | UpPhase | SwipePhase | TapPhase

  function EventTouchToInt(t: EventTouch): (n: int)
    ensures 0 <= n <= 5
  {
    match t
    case HoverPhase => 0
    case DownPhase => 1
    case HoldPhase => 2
    case UpPhase => 3
    case SwipePhase => 4
    case TapPhase => 5
  }

  function EventTouchFromInt(n: int): (r: Option<EventTouch>)
    ensures r.Some? <==> 0 <= n <= 5
    ensures r.Some? ==> EventTouchToInt(r.value) == n
  {
    if n == 0 then Some(HoverPhase)
    else if n == 1 then Some(DownPhase)
    else if n == 2 then Some(HoldPhase)
    else if n == 3 then Some(UpPhase)
    else if n == 4 then Some(SwipePhase)
    else if n == 5 then Some(TapPhase)
    else None
  }

  lemma EventTouchRoundTrip(t: EventTouch)
    ensures EventTouchFromInt(EventTouchToInt(t)) == Some(t)
  {
  }
}
