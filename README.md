# Nanoleaf event core in Dafny

A model of the event-listening core of the Nanoleaf client (`nanoleaf.py`):

- the UDP touch-telemetry decoder: a big-endian 16-bit record count followed
  by five-byte records `[panelHi, panelLo, typeAndStrength, sourceHi,
  sourceLo]`, each turned into a record with the panel id, the touch phase
  (`EventTouch`, bits 4-6), the strength (low nibble) and the source panel
  (`None` for the 0xFFFF sentinel);
- the UDP channel (`Nanoleaf.UDP`): the port scan of `open` from 10000 over
  9999 ports, `is_open` and `close`;
- the classification of Server-Sent Events: every element of a message's
  `events` array is tagged with `EventType(id)`, STATE and LAYOUT elements
  get their `attr` re-typed, TOUCH elements their `gesture` re-typed and a
  `panel` that is `None` for a negative `panelId`; unknown ids raise;
- the dispatch loop of `listen_events`, which checks the stop flag only
  after the notifier returns;
- the small pure parts around them: target normalisation, `url`, the body
  of `set`, the `events?id=` query and the `TouchEventsPort` header.

Files and modules:

| file | module | contents |
|---|---|---|
| wrappers.dfy | Wrappers | `Option`, `Result` |
| text.dfy | Text | `str(n)` for naturals and its inverse, `sep.join` |
| enums.dfy | Enums | `EventType`, `EventState`, `EventLayout`, `EventGesture`, `EventTouch` with `FromInt`/`ToInt` |
| touch.dfy | Touch | the datagram decoder (`Decode`, the loop `DecodeDatagram`), the encoder and round trip, the listener's multi-datagram view |
| udp.dfy | Udp | the port scan and the `Channel` class |
| events.dfy | Events | `Classify`, the dispatch predicate `Delivers` and its lemmas, the query string and touch-port header |
| nanoleaf.dfy | Nanoleaf | target, URLs, `set` body, and the `Device` class with `ListenEvents` and `ListenTouchEvents` |

How the model stands in for what it cannot see:

- Bytes are integers 0..255; `hi << 8 | lo` is `hi * 256 + lo`, `b & 0xf`
  is `b % 16` and `(b & 0x70) >> 4` is `(b / 16) % 8` (the last two are
  proved on eight-bit values by `Touch.TypeByteFields`).
- A Python exception is a `Failure` (or an `error` out-parameter): the
  `IndexError` of reading past a datagram is `Truncated`, the `ValueError` of
  an enum constructor is `UnknownPhase`, `UnknownEventType`, `UnknownAttr` or
  `UnknownGesture`, and a missing dict key is `MissingKey`.
- Binding is given by the set of ports other sockets already hold; `bind`
  succeeds on any other port.
- `recv` is the sequence of datagrams the socket returns before the channel
  is closed; the touch notifier's calls are the `records` out-parameter, in
  call order.
- The SSE stream is a sequence of messages, each an integer `id` and the
  parsed `events` array. The SSE notifier is `stops: nat -> bool`: its n-th
  call (from 0) sets the stop flag exactly when `stops(n)`; its deliveries
  are the `delivered` out-parameter.
- `Udp.ChannelLifecycle` is a client of the `Channel` class: it shows that
  after `Open` the channel is open whenever a port was free, that `Close`
  leaves it closed however often it is called, and that opening an open
  channel moves it to the next free port.

Behaviour of the code worth noting:

- A datagram shorter than its count announces, or with phase bits 6 or 7,
  raises inside `listen_touch_events`. Nothing catches the exception, so the
  listener ends (`DecodeAll` stops at the first such datagram). It does not
  drop the datagram and go on listening.
- The `TouchEventsPort` header is sent whenever the UDP channel is open,
  whether or not TOUCH is among the requested types (nanoleaf.py:208-209).
- The event type is converted once per element, inside the inner loop. A
  message with an unknown id and an empty `events` array raises nothing.
- When every port is taken, `open` re-raises the error of the last attempt,
  on port 19998, and leaves `port` and `socket` unchanged. Nothing rejects
  a second `open` while the channel is open: it binds a new socket, scanning
  from 10000 again while the old socket still holds its port, so the new
  one lands on the first port free of the other sockets' ports and the old
  one. That is a later port only when the other sockets still hold the
  ports they held at the first `open`.
- `listen_touch_events` without a notifier (`touch_notifier=None`) calls
  `None` on the first record that decodes; the `TypeError` ends the
  listener with nothing delivered (nanoleaf.py:249, 269).

## Model

| member | source | states |
|---|---|---|
| Text.DecimalString | nanoleaf.py:209 | `str(port)` is a non-empty string of digits without a leading zero |
| Text.ParseDecimalString | nanoleaf.py:209 | reading back the decimal string of a port gives the port |
| Text.Join | nanoleaf.py:206 | joining no parts gives the empty string, joining one part gives that part |
| Text.JoinEnds | nanoleaf.py:206 | a joined string starts with the first part, then the separator when more parts follow, and ends with the last part |
| Enums.EventTypeFromInt | nanoleaf.py:169-173 | `EventType(n)` succeeds exactly for 1..4 and yields the member whose value is n |
| Enums.EventTypeRoundTrip | nanoleaf.py:169-173 | converting a member's value back gives the member |
| Enums.EventStateFromInt | nanoleaf.py:175-181 | `EventState(n)` succeeds exactly for 1..6 and yields the member whose value is n |
| Enums.EventStateRoundTrip | nanoleaf.py:175-181 | converting a member's value back gives the member |
| Enums.EventLayoutFromInt | nanoleaf.py:183-185 | `EventLayout(n)` succeeds exactly for 1..2 and yields the member whose value is n |
| Enums.EventLayoutRoundTrip | nanoleaf.py:183-185 | converting a member's value back gives the member |
| Enums.EventGestureFromInt | nanoleaf.py:187-194 | `EventGesture(n)` succeeds exactly for 0..6 and yields the member whose value is n |
| Enums.EventGestureRoundTrip | nanoleaf.py:187-194 | converting a member's value back gives the member |
| Enums.EventTouchFromInt | nanoleaf.py:241-247 | `EventTouch(n)` succeeds exactly for 0..5 (TAP included) and yields the member whose value is n |
| Enums.EventTouchRoundTrip | nanoleaf.py:241-247 | converting a member's value back gives the member |
| Touch.Be16 | nanoleaf.py:258 | the big-endian value of two bytes is below 0x10000, with hi as its high byte and lo as its low byte |
| Touch.PhaseBits | nanoleaf.py:263 | the phase field is a 3-bit value, 0..7 |
| Touch.StrengthBits | nanoleaf.py:264 | the strength is a nibble, 0..15 |
| Touch.TypeByteFields | nanoleaf.py:263-264 | on every eight-bit value, `(b & 0x70) >> 4` is the phase field and `b & 0xf` the strength field of the model |
| Touch.SourceOf | nanoleaf.py:265-268 | the source is `None` exactly for 0xFFFF, and otherwise the wire value |
| Touch.Count | nanoleaf.py:258 | the record count is a 16-bit value |
| Touch.RecordAt | nanoleaf.py:261-268 | one record is read without raising exactly when its five bytes are present and its phase is 0..5; then its fields are the big-endian panel, the phase bits, the low nibble and the source; a present type byte with phase bits 6 or 7 raises `UnknownPhase` with those bits, and a missing type byte raises `Truncated` |
| Touch.DecodeFrom | nanoleaf.py:259-271 | `num` iterations deliver at most `num` records, exactly `num` when nothing raises (the records themselves are given by `DecodeFromShape`) |
| Touch.Decode | nanoleaf.py:257-271 | a datagram shorter than two bytes raises `Truncated` with nothing delivered; otherwise at most the announced count of records is delivered, exactly that count when nothing raises (each record, and its well-formedness, is given by `DecodedRecordAt`) |
| Touch.DecodeDatagram | nanoleaf.py:258-271 | the `while num:` loop delivers exactly the records and the exception that `Decode` describes |
| Touch.DecodeFromShape | nanoleaf.py:259-271 | the loop delivers the records at offsets i, i+5, i+10, ... in wire order, at most `num` of them, exactly `num` when nothing raises, and raises at the first bad offset |
| Touch.DecodeFromSucceedsIff | nanoleaf.py:259-271 | `num` iterations run without raising exactly when all `num` records are present and have phases 0..5 |
| Touch.DecodeSucceedsIff | nanoleaf.py:258-271 | a datagram decodes without raising exactly when it holds 2 + 5N bytes for its count N and no phase is 6 or 7; it then yields exactly N records |
| Touch.DecodedRecordAt | nanoleaf.py:262-268 | record k comes from offset 2 + 5k: panel `data[j]*256 + data[j+1]`, phase `(data[j+2] / 16) % 8`, strength `data[j+2] % 16`, source `None` exactly for 0xFFFF; every record is well formed |
| Touch.DecodeErrorCause | nanoleaf.py:258-265 | an `UnknownPhase` error carries bits 6 or 7 of the record where decoding stopped; a `Truncated` error means the datagram is too short for the next record |
| Touch.Encode | nanoleaf.py:258-268 | a datagram of N records is 2 + 5N bytes long |
| Touch.RecordAtEncoded | nanoleaf.py:261-268 | an encoded record read at its offset gives the record back |
| Touch.DecodeFromEncoded | nanoleaf.py:259-271 | decoding encoded records gives them back with no error |
| Touch.DecodeEncode | nanoleaf.py:258-271 | decoding an encoded datagram gives back every record whose source is absent or not 0xFFFF |
| Touch.DecodeOneDownTouch | nanoleaf.py:258-268 | `00 01 00 2A 15 FF FF` decodes to one DOWN record of strength 5 on panel 42 with no source |
| Touch.EmptyDatagramContinues | nanoleaf.py:256-260 | a datagram with count 0 delivers nothing and the listener goes on with the next datagram |
| Touch.DecodeAll | nanoleaf.py:256-271 | the listener ends without error exactly when every received datagram decodes; the first datagram's records come first |
| Touch.DecodeAllRecordsWellFormed | nanoleaf.py:256-271 | every record handed to the notifier over all datagrams is well formed: panel below 0x10000, strength below 16, source absent or below 0xFFFF |
| Touch.DecodeAllWellFormed | nanoleaf.py:256-271 | when every datagram decodes, the listener ends without error having delivered as many records as the datagrams announce |
| Udp.ScanPorts | nanoleaf.py:283-294 | the scan succeeds exactly when a port in 10000..19998 is free, and then returns the first free port; otherwise it raises the error of port 19998 |
| Udp.FirstFreeUnique | nanoleaf.py:284-292 | at most one port is the first free port of the range |
| Udp.NineOccupiedPorts | nanoleaf.py:284-292 | with 10000..10008 taken and 10009 free, 10009 is the port the scan stops at |
| Udp.Channel.constructor | nanoleaf.py:278-280 | a new channel has port 0 and no socket, so it is not open |
| Udp.Channel.IsOpen | nanoleaf.py:298-299 | for a consistent channel, open exactly when it holds a socket |
| Udp.Channel.Held | nanoleaf.py:282-296 | the ports taken while the channel scans are the other sockets' ports plus the channel's own port while it holds a socket |
| Udp.Channel.Open | nanoleaf.py:282-296 | the scan runs over the other sockets' ports and the channel's own port; on success the channel holds a socket on the first port free of both and is open (so a second `open` never reuses the port it still holds); when every port is taken it raises and leaves port and socket unchanged; the channel stays consistent (socket held exactly when the port is not 0) |
| Udp.Channel.Close | nanoleaf.py:304-308 | from any state, port becomes 0 and the socket is dropped, so the channel is not open |
| Events.PanelOf | nanoleaf.py:231-232 | `panel` is present exactly for a non-negative `panelId`, and equals it |
| Events.Classify | nanoleaf.py:222-232 | an element is accepted exactly when its id is 1..4 and, for STATE, LAYOUT and TOUCH, its `attr` or `gesture` is in range (and TOUCH has a `panelId`); an id outside 1..4 raises `UnknownEventType`; an accepted event has type `EventType(id)`, keeps every original field, and carries the re-typed `attr` (STATE, LAYOUT), nothing (EFFECT) or the re-typed `gesture` with the normalised `panel` (TOUCH) |
| Events.TouchPanelNormalised | nanoleaf.py:229-232 | a TOUCH event with `panelId` -1 has no panel; one with 42 has panel 42 |
| Events.Tagged | nanoleaf.py:221-223 | every element of a message is paired with the message's id, in array order |
| Events.FlattenContents | nanoleaf.py:221-222 | the loops visit every element of every message, paired with its message's id, and nothing else |
| Events.FlattenPrefix | nanoleaf.py:221-222 | the elements of the first m messages are visited before all others |
| Events.Delivers | nanoleaf.py:221-235 | a run that reaches the end of the stream classified every element; a run that raised did so at the first element that does not classify, with that element's error |
| Events.DeliversUnique | nanoleaf.py:221-235 | the dispatch run for a given stream and notifier is unique: same deliveries, same ending |
| Events.StopAfterDelivery | nanoleaf.py:233-239 | if the notifier of event k sets the stop flag and none before did, event k is delivered and nothing after it |
| Events.NoStopDeliversAll | nanoleaf.py:221-235 | if the stop flag is never set and every element is well formed, all elements are delivered in stream order |
| Events.IdStrings | nanoleaf.py:206 | one id string per requested type |
| Events.EventsEndpoint | nanoleaf.py:206 | the endpoint is `events?id=` followed by the comma-joined ids |
| Events.ParseJoinedIds | nanoleaf.py:206 | the comma-joined ids read back as exactly the requested types, in order |
| Events.IdsQuery | nanoleaf.py:206 | the query reads back as exactly the requested types, in order; no types give the empty query |
| Events.TouchHeaders | nanoleaf.py:207-209 | the `TouchEventsPort` header is present exactly when the channel's port is not 0, and it reads back as that port |
| Nanoleaf.NormaliseTarget | nanoleaf.py:22-25 | the target always has a port; one that had a colon is kept, any other gets `:16021` |
| Nanoleaf.NormaliseTargetIdempotent | nanoleaf.py:22-25 | normalising twice is normalising once |
| Nanoleaf.UrlFor | nanoleaf.py:36-40 | a URL starts with `http://<target>/api/v1/`, continues with `<token>/` when the token is non-empty, and ends with the endpoint |
| Nanoleaf.UrlAppendsEndpoint | nanoleaf.py:26-40 | every URL is the root URL followed by the endpoint; the root is `http://<target>/api/v1/`, then `<token>/` when the token is non-empty |
| Nanoleaf.UrlEndpointInjective | nanoleaf.py:36-40 | distinct endpoints of one device have distinct URLs |
| Nanoleaf.SetBody | nanoleaf.py:62-66 | the body has the endpoint as its only key; its object has `value` set to the value, and `duration` exactly when the duration is non-zero |
| Nanoleaf.Device.constructor | nanoleaf.py:17-28 | the device stores the normalised target and the token, and its UDP channel starts closed |
| Nanoleaf.Device.SetRequest | nanoleaf.py:62-66 | `set` PUTs `SetBody` to the device's `state` URL |
| Nanoleaf.Device.CloseEvents | nanoleaf.py:237-239 | the stop flag is set |
| Nanoleaf.Device.ListenEvents | nanoleaf.py:206-235 | the stream opens at the events URL with the touch-port header of the current channel; the flag is reset; the run satisfies `Delivers`, so it delivers the classified elements in order, checks the flag only after each delivery, and stops at the first stop, raise or end; the flag is left set exactly when the run stopped |
| Nanoleaf.Device.DispatchEvents | nanoleaf.py:221-235 | from a clear flag, the loops satisfy `Delivers` over the flattened stream, and the flag is left set exactly when the run stopped |
| Nanoleaf.Device.ListenTouchEvents | nanoleaf.py:249-271 | when no port is free it raises with nothing delivered and the channel's port and socket unchanged; otherwise the channel holds a socket and is open on the first free port; with a notifier the records and error are those of `DecodeAll` over the received datagrams; without one nothing is delivered, and the listener raises `NoNotifier` exactly when some record decodes before any datagram raises, otherwise it ends as `DecodeAll` does |
| Nanoleaf.Device.ReceiveTouchEvents | nanoleaf.py:256-271 | over an open channel, with a notifier the records and error are those of `DecodeAll`; without one nothing is delivered and the loop raises `NoNotifier` exactly when some record decodes before any datagram raises |
| Nanoleaf.Device.CloseTouchEvents | nanoleaf.py:273-274 | the UDP channel is closed, consistent, and its socket dropped |

## Left out

- The REST wrappers `get`, `put`, `post`, `delete`, `query`, `update`, `add_user`, `del_user`, `identify`, `__eq__`, `__repr__` and the state accessors (`BoolState`, `IntState`, `MinMaxState`, `color_mode`, `effect`, `layout`, `orientation`): thin calls into an HTTP library that is not part of this model. `set` is modelled by the URL and body it sends.
- The SSE client (both `sseclient` variants), the HTTP connection it opens and its transport errors: a foreign library and the network. The stream is an input sequence of messages.
- JSON parsing of `events.data` and `int(events.id)`: the stream carries parsed integers. A non-integer `attr`, `gesture`, `panelId` or id (which the source would reject with other exceptions) is not modelled.
- The keep-alive loop of `listen_events` without a notifier (`time.sleep` polling of `sse_stop`): timing and cross-thread polling.
- Socket creation, `bind`, `recv(2048)` and `socket.close`: operating-system calls. Binding is the set of occupied ports, `recv` the given datagrams; the truncation of datagrams longer than 2048 bytes is not modelled.
- Nanoleaf.Device.ListenTouchEvents: closing the channel from another thread while `recv` blocks is not modelled; the end of the datagram sequence stands for it, and the `is_open` check of the loop is always true inside the model.
- Udp.Channel.Open: the model tracks the port the channel's own socket holds, but not socket identity, so it does not show that a second `open` leaks the first socket, or that the socket created for a failed scan is never closed.
- Nanoleaf.Device.ListenEvents: the notifier's own effects other than setting the stop flag are not modelled; a flag set by another thread counts as set during the call in progress.
- The order in which `','.join` visits a Python `set` of types: the requested types are a sequence in the caller's order.
- The threads of `__main__`, the zeroconf browser `NanoleafZeroconf` and the command line: concurrency, discovery and printing.
