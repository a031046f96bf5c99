/** The UDP channel that receives touch datagrams (`Nanoleaf.UDP`). Binding
    is abstracted: the ports other sockets already hold are a parameter, and
    a bind succeeds exactly on a port outside that set. */
module Udp {

  import opened Wrappers

  /** The first port `open` tries. */
  const BasePort: nat := 10000
  /** How many ports `open` tries: `range(9999)`. */
  const Attempts: nat := 9999
  /** The last port `open` tries. */
  const LastPort: nat := BasePort + Attempts - 1

  /** The `OSError` of the last failed bind, re-raised by `open` when every
      attempt failed. */
  datatype BindError = BindExhausted(lastTried: nat)

  /** `p` is where the scan stops: the first port of the range not occupied. */
  ghost predicate IsFirstFree(occupied: set<nat>, p: nat) {
    && BasePort <= p <= LastPort
    && p !in occupied
    && forall q :: BasePort <= q < p ==> q in occupied
  }

  /** Some port of the range is free. */
  ghost predicate SomeFree(occupied: set<nat>) {
    exists p :: BasePort <= p <= LastPort && p !in occupied
  }

  /** The `for attempt in range(9999)` loop of `open`: try ports 10000,
      10001, ... in increasing order and keep the first that binds. */
  method ScanPorts(occupied: set<nat>) returns (r: Result<nat, BindError>)
    ensures r.Success? <==> SomeFree(occupied)
    ensures r.Success? ==> IsFirstFree(occupied, r.value)
    ensures r.Failure? ==> r.error == BindExhausted(LastPort)
  {
    var port := BasePort;
    for attempt := 0 to Attempts
      invariant port == BasePort + attempt
      invariant forall q :: BasePort <= q < port ==> q in occupied
    {
      if port !in occupied {
        return Success(port);
      }
      port := port + 1;
    }
    return Failure(BindExhausted(port - 1));
  }

  /** Only one port can be the first free one. */
  lemma FirstFreeUnique(occupied: set<nat>, p: nat, q: nat)
    requires IsFirstFree(occupied, p) && IsFirstFree(occupied, q)
    ensures p == q
  {
  }

  /** With ports 10000..10008 held by others, the channel binds to 10009. */
  lemma NineOccupiedPorts(occupied: set<nat>)
    requires forall q :: BasePort <= q < BasePort + 9 ==> q in occupied
    requires BasePort + 9 !in occupied
    ensures SomeFree(occupied)
    ensures IsFirstFree(occupied, 10009)
  {
  }

  /** `Nanoleaf.UDP`: a socket and the port it is bound to, 0 when closed. */
  class Channel {
    var port: nat
    var hasSocket: bool

    /** The invariant `__init__`, `open` and `close` keep: a socket is held
        exactly when the port is not 0. */
    ghost predicate Valid()
      reads this
    {
      hasSocket <==> port != 0
    }

    constructor ()
      ensures Valid()
      ensures port == 0 && !hasSocket
      ensures !IsOpen()
    {
      port := 0;
      hasSocket := false;
    }

    /** `is_open`: on a valid channel, open exactly when a socket is held. */
    predicate IsOpen()
      reads this
      ensures Valid() ==> (IsOpen() <==> hasSocket)
    {
      port != 0
    }

    /** The ports a bind of a new socket finds taken: those of other sockets
        and, while the channel holds one, its own socket's port. */
    function Held(occupied: set<nat>): (held: set<nat>)
      reads this
      ensures occupied <= held
      ensures hasSocket ==> port in held
      ensures held <= occupied + {port}
    {
      if hasSocket then occupied + {port} else occupied
    }

    /** `open`: bind a new socket to the first free port of the range. The
        old socket, if any, still holds its port during the scan; it is
        released once the new socket replaces it. When no port binds, the
        error is raised and the fields are left as they were. */
    method Open(occupied: set<nat>) returns (r: Result<nat, BindError>)
      requires Valid()
      modifies this
      ensures Valid()
      ensures r.Success? <==> SomeFree(old(Held(occupied)))
      ensures r.Success? ==> IsFirstFree(old(Held(occupied)), r.value) && port == r.value && hasSocket && IsOpen()
      ensures r.Failure? ==> r.error == BindExhausted(LastPort) && port == old(port) && hasSocket == old(hasSocket)
    {
      r := ScanPorts(Held(occupied));
      if r.Success? {
        hasSocket := true;
        port := r.value;
      }
    }

    /** `close`: whatever the state before, the port is 0 and the socket
        dropped, so closing twice is the same as closing once. */
    method Close()
      modifies this
      ensures Valid()
      ensures port == 0 && !hasSocket
      ensures !IsOpen()
    {
      port := 0;
      if hasSocket {
        hasSocket := false;
      }
    }
  }

  /** Open then close leaves the channel as closed as a fresh one, and a
      second close changes nothing; opening twice with no other socket
      around moves to the next port, because the first socket still holds
      10000 while the second one binds. */
  method ChannelLifecycle(occupied: set<nat>)
  {
    var c := new Channel();
    var r := c.Open(occupied);
    if SomeFree(occupied) {
      assert c.IsOpen() && c.port >= BasePort;
    } else {
      assert !c.IsOpen() && !c.hasSocket;
    }
    c.Close();
    assert !c.IsOpen();
    c.Close();
    assert c.port == 0 && !c.hasSocket;

    var d := new Channel();
    var first := d.Open({});
    assert IsFirstFree({}, BasePort);
    assert d.port == BasePort;
    var second := d.Open({});
    assert IsFirstFree({BasePort}, BasePort + 1);
    assert d.port == BasePort + 1;
  }
}
