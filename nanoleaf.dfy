/** The device object (`Nanoleaf`): its target and REST URLs, the body of a
    `set` request, and the two listeners. */
module Nanoleaf {

  import opened Wrappers
  import opened Enums
  import opened Touch
  import opened Events
  import opened Udp

  /** The controller's default REST port, appended when the target has none. */
  const DefaultPort: string := "16021"
  const ApiPrefix: string := "/api/v1/"

  /** The `__init__` normalisation: a target without a port gets the
      default port. */
  function NormaliseTarget(target: string): (t: string)
    ensures ':' in t
    ensures ':' in target ==> t == target
    ensures ':' !in target ==> t == target + ":" + DefaultPort
  {
    if ':' in target then target else target + ":" + DefaultPort
  }

  /** Normalising a normalised target changes nothing. */
  lemma NormaliseTargetIdempotent(target: string)
    ensures NormaliseTarget(NormaliseTarget(target)) == NormaliseTarget(target)
  {
  }

  /** Python's truthiness of the token: `None` and `''` both mean none. */
  predicate HasToken(token: Option<string>) {
    token.Some? && token.value != ""
  }

  /** `url(endpoint)` of a device whose normalised target is `target`: the
      HTTP URL of the API prefix on that target, then the token and a slash
      when there is a (non-empty) token, and the endpoint last. */
  function UrlFor(target: string, token: Option<string>, endpoint: string): (u: string)
    ensures "http://" + target + ApiPrefix <= u
    ensures |u| >= |endpoint| && u[|u| - |endpoint|..] == endpoint
    ensures HasToken(token) ==> (token.value + "/") <= u[|"http://" + target + ApiPrefix|..]
    ensures !HasToken(token) ==> |u| == |"http://" + target + ApiPrefix| + |endpoint|
  {
    "http://" + target + ApiPrefix + (if HasToken(token) then token.value + "/" else "") + endpoint
  }

  /** Every URL of a device is its root URL followed by the endpoint; the
      root is the API prefix, then the token and a slash when there is one. */
  lemma UrlAppendsEndpoint(target: string, token: Option<string>, endpoint: string)
    ensures UrlFor(target, token, endpoint) == UrlFor(target, token, "") + endpoint
    ensures HasToken(token) ==> UrlFor(target, token, "") == "http://" + target + ApiPrefix + token.value + "/"
    ensures !HasToken(token) ==> UrlFor(target, token, "") == "http://" + target + ApiPrefix
  {
  }

  /** Distinct endpoints of one device have distinct URLs. */
  lemma UrlEndpointInjective(target: string, token: Option<string>, e1: string, e2: string)
    requires UrlFor(target, token, e1) == UrlFor(target, token, e2)
    ensures e1 == e2
  {
    var root := UrlFor(target, token, "");
    UrlAppendsEndpoint(target, token, e1);
    UrlAppendsEndpoint(target, token, e2);
    assert e1 == (root + e1)[|root|..];
    assert e2 == (root + e2)[|root|..];
  }

  /** A JSON value of a request body; `V` stands for the caller's value. */
  datatype Json<V> = Value(v: V) | Number(n: int) | Object(fields: map<string, Json<V>>)

  /** The body `set` sends: `{endpoint: {'value': value}}`, with a
      `'duration'` key added only for a non-zero (truthy) duration. */
  function SetBody<V>(endpoint: string, value: V, duration: int): (body: Json<V>)
    ensures body.Object? && body.fields.Keys == {endpoint}
    ensures var inner := body.fields[endpoint];
      && inner.Object?
      && inner.fields.Keys <= {"value", "duration"}
      && "value" in inner.fields && inner.fields["value"] == Value(value)
      && ("duration" in inner.fields <==> duration != 0)
      && (duration != 0 ==> inner.fields["duration"] == Number(duration))
  {
    var inner := map["value" := Value(value)];
    var inner' := if duration != 0 then inner["duration" := Number(duration)] else inner;
    Object(map[endpoint := Object(inner')])
  }

  /** A PUT request: its URL and its JSON body. */
  datatype Put<V> = Put(url: string, body: Json<V>)

  /** A failure of the touch listener: the port scan gave up, a datagram
      raised while it was decoded, or a record was handed to a missing
      notifier (calling `None` raises `TypeError`). */
  datatype TouchError = BindFailed(bind: BindError) | Malformed(decode: DecodeError) | NoNotifier

  /** A decoding exception as a failure of the touch listener. */
  function AsTouchError(e: Option<DecodeError>): (r: Option<TouchError>)
    ensures r.None? <==> e.None?
    ensures r.Some? ==> r.value == Malformed(e.value)
  {
    match e
    case None => None
    case Some(d) => Some(Malformed(d))
  }

  /** A controller as seen by the client (`Nanoleaf`). */
  class Device {
    const target: string
    var token: Option<string>
    const touchEvents: Channel
    var sseStop: bool

    constructor (target: string, token: Option<string>)
      ensures this.target == NormaliseTarget(target) && this.token == token
      ensures fresh(touchEvents) && touchEvents.Valid() && !touchEvents.IsOpen() && !touchEvents.hasSocket
      ensures !sseStop
    {
      this.target := NormaliseTarget(target);
      this.token := token;
      touchEvents := new Channel();
      sseStop := false;
    }

    /** `url(endpoint)`. */
    function Url(endpoint: string): string
      reads this`token
    {
      UrlFor(target, token, endpoint)
    }

    /** `set(endpoint, value, duration)`: a PUT of `SetBody` to `state`. */
    function SetRequest<V>(endpoint: string, value: V, duration: int): (r: Put<V>)
      reads this`token
      ensures r.url == Url("") + "state"
      ensures r.body == SetBody(endpoint, value, duration)
    {
      UrlAppendsEndpoint(target, token, "state");
      Put(Url("state"), SetBody(endpoint, value, duration))
    }

    /** `close_events`: stop after the event being delivered. */
    method CloseEvents()
      modifies this`sseStop
      ensures sseStop
    {
      sseStop := true;
    }

    /** `listen_events` with a notifier: reset the stop flag, open the stream
        at `EventsEndpoint(types)` with the touch-port header when the UDP
        channel is open, then classify and deliver each element of each
        message. The notifier is abstracted by `stops`: its n-th call sets
        the stop flag (through `close_events`) exactly when `stops(n)`. */
    method ListenEvents<V>(types: seq<EventType>, stream: seq<Message<V>>, stops: nat -> bool)
      returns (url: string, headers: map<string, string>, delivered: seq<Event<V>>, end: End)
      modifies this`sseStop
      ensures url == Url(EventsEndpoint(types))
      ensures headers == TouchHeaders(touchEvents.port)
      ensures Delivers(Flatten(stream), stops, delivered, end)
      ensures sseStop <==> end == Stopped
    {
      url := Url(EventsEndpoint(types));
      headers := TouchHeaders(touchEvents.port);
      sseStop := false;
      delivered, end := DispatchEvents(stream, stops);
    }

    /** The loop of `listen_events` over an open stream whose stop flag is
        clear: classify and deliver each element of each message, and check
        the flag after each delivery. */
    method DispatchEvents<V>(stream: seq<Message<V>>, stops: nat -> bool)
      returns (delivered: seq<Event<V>>, end: End)
      requires !sseStop
      modifies this`sseStop
      ensures Delivers(Flatten(stream), stops, delivered, end)
      ensures sseStop <==> end == Stopped
    {
      delivered := [];
      var m := 0;
      while m < |stream|
        invariant 0 <= m <= |stream|
        invariant !sseStop
        invariant |delivered| == |Flatten(stream[..m])|
        invariant ClassifiedPrefix(Flatten(stream[..m]), delivered)
        invariant NoStopBefore(stops, |delivered|)
      {
        var message := stream[m];
        ghost var done := Flatten(stream[..m]);
        ghost var upTo := done + Tagged(message);
        assert stream[..m + 1][..m] == stream[..m];
        assert Flatten(stream[..m + 1]) == upTo;
        FlattenPrefix(stream, m + 1);
        ClassifiedPrefixWiden(done, upTo, delivered);
        var j := 0;
        while j < |message.events|
          invariant 0 <= j <= |message.events|
          invariant !sseStop
          invariant |delivered| == |done| + j
          invariant ClassifiedPrefix(upTo, delivered)
          invariant NoStopBefore(stops, |delivered|)
        {
          assert upTo[|delivered|] == (message.id, message.events[j]);
          var r := Classify(message.id, message.events[j]);
          if r.Failure? {
            end := Failed(r.error);
            ClassifiedPrefixWiden(upTo, Flatten(stream), delivered);
            return;
          }
          ClassifiedPrefixExtend(upTo, delivered, r.value);
          delivered := delivered + [r.value];
          if stops(|delivered| - 1) {
            sseStop := true;
          }
          if sseStop {
            end := Stopped;
            ClassifiedPrefixWiden(upTo, Flatten(stream), delivered);
            return;
          }
          j := j + 1;
        }
        m := m + 1;
      }
      assert stream[..m] == stream;
      end := Exhausted;
    }

    /** `listen_touch_events`: open the UDP channel, then decode each
        datagram the socket returns and hand its records to the notifier.
        The datagrams are what `recv` returns until the channel is closed.
        Without a notifier (`touch_notifier=None`), the first record that
        decodes is handed to `None`, which raises and ends the listener with
        nothing delivered. */
    method ListenTouchEvents(occupied: set<nat>, datagrams: seq<seq<byte>>, hasNotifier: bool)
      returns (records: seq<TouchRecord>, error: Option<TouchError>)
      requires touchEvents.Valid()
      modifies touchEvents
      ensures touchEvents.Valid()
      ensures !SomeFree(old(touchEvents.Held(occupied))) ==>
                && records == [] && error == Some(BindFailed(BindExhausted(LastPort)))
                && touchEvents.port == old(touchEvents.port)
                && touchEvents.hasSocket == old(touchEvents.hasSocket)
      ensures SomeFree(old(touchEvents.Held(occupied))) ==>
                && IsFirstFree(old(touchEvents.Held(occupied)), touchEvents.port)
                && touchEvents.IsOpen() && touchEvents.hasSocket
      ensures SomeFree(old(touchEvents.Held(occupied))) && hasNotifier ==>
                var d := DecodeAll(datagrams);
                records == d.records && error == AsTouchError(d.error)
      ensures SomeFree(old(touchEvents.Held(occupied))) && !hasNotifier ==>
                var d := DecodeAll(datagrams);
                records == [] && error == if d.records != [] then Some(NoNotifier) else AsTouchError(d.error)
    {
      var bound := touchEvents.Open(occupied);
      if bound.Failure? {
        return [], Some(BindFailed(bound.error));
      }
      records, error := ReceiveTouchEvents(datagrams, hasNotifier);
    }

    /** The `while is_open()` loop of `listen_touch_events` over an open
        channel: decode each datagram and hand its records to the notifier,
        until a datagram or a missing notifier raises. */
    method ReceiveTouchEvents(datagrams: seq<seq<byte>>, hasNotifier: bool)
      returns (records: seq<TouchRecord>, error: Option<TouchError>)
      requires touchEvents.IsOpen()
      ensures hasNotifier ==>
                var d := DecodeAll(datagrams);
                records == d.records && error == AsTouchError(d.error)
      ensures !hasNotifier ==>
                var d := DecodeAll(datagrams);
                records == [] && error == if d.records != [] then Some(NoNotifier) else AsTouchError(d.error)
    {
      records := [];
      var j := 0;
      while touchEvents.IsOpen() && j < |datagrams|
        invariant 0 <= j <= |datagrams|
        invariant !hasNotifier ==> records == []
        invariant DecodeAll(datagrams) == Decoded(records + DecodeAll(datagrams[j..]).records, DecodeAll(datagrams[j..]).error)
      {
        assert datagrams[j..][1..] == datagrams[j + 1..];
        var got, err := DecodeDatagram(datagrams[j]);
        ghost var later := DecodeAll(datagrams[j + 1..]);
        assert DecodeAll(datagrams[j..]) ==
          if err.Some? then Decoded(got, err) else Decoded(got + later.records, later.error);
        if !hasNotifier && got != [] {
          assert DecodeAll(datagrams).records[0] == got[0];
          return [], Some(NoNotifier);
        }
        if err.Some? {
          assert DecodeAll(datagrams) == Decoded(records + got, err);
          return records + got, Some(Malformed(err.value));
        }
        assert records + (got + later.records) == (records + got) + later.records;
        records := records + got;
        j := j + 1;
      }
      error := None;
    }

    /** `close_touch_events`. */
    method CloseTouchEvents()
      modifies touchEvents
      ensures touchEvents.Valid() && !touchEvents.IsOpen() && !touchEvents.hasSocket
    {
      touchEvents.Close();
    }
  }
}
