/** Classification and dispatch of the Server-Sent Events stream
    (`Nanoleaf.listen_events`), and the query string and header that open
    it. The stream is the sequence of messages the SSE client yields, each
    with its integer id and its already-parsed `events` array. */
module Events {

  import opened Wrappers
  import opened Enums
  import opened Text

  /** One element of a message's `events` array: the integer fields the
      classification reads (absent when the key is missing) and the rest of
      the dict, which passes through untouched. */
  datatype RawEvent<V> = RawEvent(attr: Option<int>, gesture: Option<int>, panelId: Option<int>, rest: V)

  /** One server-sent message: its `id` and its `events` array. */
  datatype Message<V> = Message(id: int, events: seq<RawEvent<V>>)

  /** The field the classification adds or re-types, by event type: `attr`
      as an EventState or EventLayout, or for TOUCH the `gesture` as an
      EventGesture together with the added `panel`. */
  datatype Tag = StateAttr(state: EventState)
               | LayoutAttr(layout: EventLayout)
               | TouchGesture(gesture: EventGesture, panel: Option<nat>)
               | Untagged

  /** The dict handed to the notifier: `type` set, one field re-typed, and
      every original key still present. */
  datatype Event<V> = Event(kind: EventType, tag: Tag, raw: RawEvent<V>)

  /** The exceptions the classification raises: `ValueError` from an enum
      constructor, `KeyError` for a missing key. */
  datatype ClassifyError = UnknownEventType(id: int)
                         | UnknownAttr(attr: int)
                         | UnknownGesture(gesture: int)
                         | MissingKey(key: string)

  /** How a dispatch run ended: the stream ran out, the stop flag was seen
      after a delivery, or the classification raised. */
  datatype End = Exhausted | Stopped | Failed(error: ClassifyError)

  /** `panel if panel >= 0 else None`. */
  function PanelOf(panelId: int): (r: Option<nat>)
    ensures r.Some? <==> panelId >= 0
    ensures r.Some? ==> r.value == panelId
  {
    if panelId >= 0 then Some(panelId) else None
  }

  /** The loop body of `listen_events` for one element, up to the notifier
      call: tag it with `EventType(id)`, re-type `attr` for STATE and
      LAYOUT, re-type `gesture` and add `panel` for TOUCH. */
  function Classify<V>(id: int, raw: RawEvent<V>): (r: Result<Event<V>, ClassifyError>)
    ensures r.Success? <==>
              && 1 <= id <= 4
              && (id == 1 ==> raw.attr.Some? && 1 <= raw.attr.value <= 6)
              && (id == 2 ==> raw.attr.Some? && 1 <= raw.attr.value <= 2)
              && (id == 4 ==> raw.gesture.Some? && 0 <= raw.gesture.value <= 6 && raw.panelId.Some?)
    ensures r.Failure? && r.error.UnknownEventType? <==> !(1 <= id <= 4)
    ensures r.Success? ==> EventTypeToInt(r.value.kind) == id && r.value.raw == raw
    ensures r.Success? ==> match r.value.kind
              case State => r.value.tag.StateAttr? && raw.attr == Some(EventStateToInt(r.value.tag.state))
              case Layout => r.value.tag.LayoutAttr? && raw.attr == Some(EventLayoutToInt(r.value.tag.layout))
              case Effect => r.value.tag.Untagged?
              case Touch =>
                && r.value.tag.TouchGesture?
                && raw.gesture == Some(EventGestureToInt(r.value.tag.gesture))
                && (r.value.tag.panel.Some? <==> raw.panelId.value >= 0)
                && (r.value.tag.panel.Some? ==> r.value.tag.panel.value == raw.panelId.value)
  {
    match EventTypeFromInt(id)
    case None => Failure(UnknownEventType(id))
    case Some(kind) =>
      match kind
      case State =>
        if raw.attr.None? then Failure(MissingKey("attr"))
        else (match EventStateFromInt(raw.attr.value)
              case None => Failure(UnknownAttr(raw.attr.value))
              case Some(s) => Success(Event(kind, StateAttr(s), raw)))
      case Layout =>
        if raw.attr.None? then Failure(MissingKey("attr"))
        else (match EventLayoutFromInt(raw.attr.value)
              case None => Failure(UnknownAttr(raw.attr.value))
              case Some(l) => Success(Event(kind, LayoutAttr(l), raw)))
      case Effect => Success(Event(kind, Untagged, raw))
      case Touch =>
        if raw.gesture.None? then Failure(MissingKey("gesture"))
        else (match EventGestureFromInt(raw.gesture.value)
              case None => Failure(UnknownGesture(raw.gesture.value))
              case Some(g) =>
                if raw.panelId.None? then Failure(MissingKey("panelId"))
                else Success(Event(kind, TouchGesture(g, PanelOf(raw.panelId.value)), raw)))
  }

  /** A TOUCH event with `panelId` -1 has no panel; one with 42 keeps 42. */
  lemma TouchPanelNormalised<V>(rest: V)
    ensures Classify(4, RawEvent(None, Some(0), Some(-1), rest)).value.tag.panel == None
    ensures Classify(4, RawEvent(None, Some(0), Some(42), rest)).value.tag.panel == Some(42)
  {
  }

  /** The elements of one message, each paired with the message's id. */
  function Tagged<V>(m: Message<V>): (items: seq<(int, RawEvent<V>)>)
    ensures |items| == |m.events|
    ensures forall k :: 0 <= k < |items| ==> items[k] == (m.id, m.events[k])
  {
    seq(|m.events|, k requires 0 <= k < |m.events| => (m.id, m.events[k]))
  }

  /** The elements of a stream in the order the nested loops visit them. */
  function Flatten<V>(stream: seq<Message<V>>): seq<(int, RawEvent<V>)> {
    if stream == [] then [] else Flatten(stream[..|stream| - 1]) + Tagged(stream[|stream| - 1])
  }
  /** Every element of every message is in the flattened stream, and every
      item of it is an element of some message, tagged with that message's
      id. */
  lemma {:induction false} FlattenContents<V>(stream: seq<Message<V>>)
    ensures forall m, j :: 0 <= m < |stream| && 0 <= j < |stream[m].events| ==>
              (stream[m].id, stream[m].events[j]) in Flatten(stream)
    ensures forall x :: x in Flatten(stream) ==>
              exists m :: 0 <= m < |stream| && x.0 == stream[m].id && x.1 in stream[m].events
    decreases |stream|
  {
    if stream != [] {
      var init := stream[..|stream| - 1];
      var last := stream[|stream| - 1];
      FlattenContents(init);
      var items := Flatten(stream);
      assert items == Flatten(init) + Tagged(last);
      forall m, j | 0 <= m < |stream| && 0 <= j < |stream[m].events|
        ensures (stream[m].id, stream[m].events[j]) in items
      {
        if m < |stream| - 1 {
          assert stream[m] == init[m];
        } else {
          assert Tagged(last)[j] == (stream[m].id, stream[m].events[j]);
        }
      }
      forall x | x in items
        ensures exists m :: 0 <= m < |stream| && x.0 == stream[m].id && x.1 in stream[m].events
      {
        if x in Flatten(init) {
          var m :| 0 <= m < |init| && x.0 == init[m].id && x.1 in init[m].events;
          assert init[m] == stream[m];
        } else {
          var k :| 0 <= k < |Tagged(last)| && Tagged(last)[k] == x;
          assert x.1 == last.events[k];
        }
      }
    }
  }


  /** The elements of the first `m` messages come first. */
  lemma {:induction false} FlattenPrefix<V>(stream: seq<Message<V>>, m: nat)
    requires m <= |stream|
    ensures Flatten(stream[..m]) <= Flatten(stream)
    decreases |stream| - m
  {
    if m < |stream| {
      var s := stream[..m + 1];
      assert s[..|s| - 1] == stream[..m];
      FlattenPrefix(stream, m + 1);
    } else {
      assert stream[..m] == stream;
    }
  }

  /** `delivered` is the classification of the first |delivered| items. */
  ghost predicate ClassifiedPrefix<V>(items: seq<(int, RawEvent<V>)>, delivered: seq<Event<V>>) {
    && |delivered| <= |items|
    && forall k :: 0 <= k < |delivered| ==> Classify(items[k].0, items[k].1) == Success(delivered[k])
  }

  /** No notifier call before the n-th set the stop flag. */
  ghost predicate NoStopBefore(stops: nat -> bool, n: nat) {
    forall k :: 0 <= k < n ==> !stops(k)
  }

  lemma ClassifiedPrefixExtend<V>(items: seq<(int, RawEvent<V>)>, delivered: seq<Event<V>>, e: Event<V>)
    requires ClassifiedPrefix(items, delivered) && |delivered| < |items|
    requires Classify(items[|delivered|].0, items[|delivered|].1) == Success(e)
    ensures ClassifiedPrefix(items, delivered + [e])
  {
  }

  lemma ClassifiedPrefixWiden<V>(items: seq<(int, RawEvent<V>)>, more: seq<(int, RawEvent<V>)>, delivered: seq<Event<V>>)
    requires ClassifiedPrefix(items, delivered) && items <= more
    ensures ClassifiedPrefix(more, delivered)
  {
    forall k | 0 <= k < |delivered|
      ensures Classify(more[k].0, more[k].1) == Success(delivered[k])
    {
      assert more[k] == items[k];
    }
  }

  /** What a dispatch run over `items` may do when the notifier sets the
      stop flag during its n-th call (counting from 0) exactly when
      `stops(n)`: deliver the classified elements in stream order, check the
      flag only after each delivery, and end at the first stop, the first
      element that raises, or the end of the stream. */
  ghost predicate Delivers<V>(items: seq<(int, RawEvent<V>)>, stops: nat -> bool,
                              delivered: seq<Event<V>>, end: End)
    ensures Delivers(items, stops, delivered, end) && end.Exhausted? ==>
              forall k :: 0 <= k < |items| ==> Classify(items[k].0, items[k].1).Success?
    ensures Delivers(items, stops, delivered, end) && end.Failed? ==>
              && end.error == Classify(items[|delivered|].0, items[|delivered|].1).error
              && forall k :: 0 <= k < |delivered| ==> Classify(items[k].0, items[k].1).Success?
  {
    && ClassifiedPrefix(items, delivered)
    && (|delivered| > 0 ==> NoStopBefore(stops, |delivered| - 1))
    && (end.Stopped? <==> |delivered| > 0 && stops(|delivered| - 1))
    && (end.Exhausted? ==> |delivered| == |items|)
    && (end.Failed? ==> |delivered| < |items|
                        && Classify(items[|delivered|].0, items[|delivered|].1) == Failure(end.error))
  }

  /** At most one run fits a given stream and notifier: dispatch is
      deterministic. */
  lemma DeliversUnique<V>(items: seq<(int, RawEvent<V>)>, stops: nat -> bool,
                          d1: seq<Event<V>>, e1: End, d2: seq<Event<V>>, e2: End)
    requires Delivers(items, stops, d1, e1) && Delivers(items, stops, d2, e2)
    ensures d1 == d2 && e1 == e2
  {
    forall k | 0 <= k < |d1| && k < |d2|
      ensures d1[k] == d2[k]
    {
      assert Success(d1[k]) == Classify(items[k].0, items[k].1) == Success(d2[k]);
    }
  }

  /** When the notifier of the k-th event sets the stop flag and no earlier
      one did, the k-th event is delivered and nothing after it. */
  lemma StopAfterDelivery<V>(items: seq<(int, RawEvent<V>)>, stops: nat -> bool,
                             delivered: seq<Event<V>>, end: End, k: nat)
    requires Delivers(items, stops, delivered, end)
    requires k < |items| && stops(k)
    requires forall j :: 0 <= j < k ==> !stops(j)
    requires forall j :: 0 <= j <= k ==> Classify(items[j].0, items[j].1).Success?
    ensures |delivered| == k + 1 && end == Stopped
    ensures delivered[k] == Classify(items[k].0, items[k].1).value
  {
  }

  /** When the notifier never sets the stop flag and every element is well
      formed, every element is delivered, in stream order. */
  lemma NoStopDeliversAll<V>(items: seq<(int, RawEvent<V>)>, stops: nat -> bool,
                             delivered: seq<Event<V>>, end: End)
    requires Delivers(items, stops, delivered, end)
    requires forall j :: 0 <= j < |items| ==> !stops(j)
    requires forall j :: 0 <= j < |items| ==> Classify(items[j].0, items[j].1).Success?
    ensures end == Exhausted && |delivered| == |items|
    ensures forall j :: 0 <= j < |items| ==> delivered[j] == Classify(items[j].0, items[j].1).value
  {
  }

  /** The decimal ids of the requested types, in the caller's order. */
  function IdStrings(types: seq<EventType>): (parts: seq<string>)
    ensures |parts| == |types|
  {
    seq(|types|, k requires 0 <= k < |types| => DecimalString(EventTypeToInt(types[k])))
  }

  /** `','.join([str(t.value) for t in types])`. */
  function IdsQuery(types: seq<EventType>): (q: string)
    ensures ParseIds(q) == Some(types)
    ensures types == [] ==> q == ""
  {
    ParseJoinedIds(types);
    Join(IdStrings(types), ",")
  }

  /** `'events?id=' + ...`: the endpoint `listen_events` opens. */
  function EventsEndpoint(types: seq<EventType>): (endpoint: string)
    ensures |endpoint| >= 10 && endpoint[..10] == "events?id="
    ensures endpoint[10..] == IdsQuery(types)
  {
    "events?id=" + IdsQuery(types)
  }

  /** How a server reads the comma-separated id list back. */
  function ParseIds(s: string): Option<seq<EventType>>
    decreases |s|
  {
    if |s| == 0 then Some([])
    else
      match EventTypeFromInt(s[0] as int - '0' as int)
      case None => None
      case Some(t) =>
        if |s| == 1 then Some([t])
        else if s[1] != ',' then None
        else match ParseIds(s[2..])
          case None => None
          case Some(rest) => Some([t] + rest)
  }

  /** The comma-joined ids name exactly the requested types, in order. */
  lemma {:induction false} ParseJoinedIds(types: seq<EventType>)
    ensures ParseIds(Join(IdStrings(types), ",")) == Some(types)
    decreases |types|
  {
    if |types| > 0 {
      var d := DecimalString(EventTypeToInt(types[0]));
      assert d == [DigitChar(EventTypeToInt(types[0]))];
      EventTypeRoundTrip(types[0]);
      assert IdStrings(types)[0] == d;
      if |types| == 1 {
        assert Join(IdStrings(types), ",") == d;
        assert types == [types[0]];
      } else {
        var parts := IdStrings(types);
        assert parts[1..] == IdStrings(types[1..]);
        assert Join(IdStrings(types), ",") == d + "," + Join(IdStrings(types[1..]), ",");
        assert Join(IdStrings(types), ",")[2..] == Join(IdStrings(types[1..]), ",");
        ParseJoinedIds(types[1..]);
        assert [types[0]] + types[1..] == types;
      }
    }
  }

  /** Name of the header that advertises the UDP touch port. */
  const TouchPortHeader: string := "TouchEventsPort"

  /** The request headers: the port header is sent exactly when the UDP
      channel is open (port not 0), and it carries that port in decimal. */
  function TouchHeaders(port: nat): (headers: map<string, string>)
    ensures headers.Keys <= {TouchPortHeader}
    ensures TouchPortHeader in headers <==> port != 0
    ensures port != 0 ==> ParseDecimal(headers[TouchPortHeader]) == Some(port)
  {
    ParseDecimalString(port);
    if port != 0 then map[TouchPortHeader := DecimalString(port)] else map[]
  }
}
