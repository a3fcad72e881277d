/** `tryConnect`: try the addresses one at a time, front first, on one
    socket, until one connects or the list runs out. */
module ConnectionCascade {
  import opened Types

  /** What the socket reports for one `socket.connect` call. */
  datatype ConnectResult = Connected | Refused(error: Error)

  /** What the listener returned by `connect` emits. */
  datatype Event = ConnectEvent | ErrorEvent(error: Option<Error>)

  /** The addresses `socket.connect` was called with, the events the listener
      emitted, and whether `onConnect`/`onError` are still attached. */
  datatype CascadeTrace = CascadeTrace(attempts: seq<Address>, events: seq<Event>, listening: bool)

  function Then(prefix: seq<Address>, t: CascadeTrace): CascadeTrace
  {
    CascadeTrace(prefix + t.attempts, t.events, t.listening)
  }

  /** The cascade from the point where `connectNext` shifts `addrs`, with
      `error` the last recorded error and `outcomes[i]` the report of the i-th
      attempt from here on. An attempt with no report stays in flight. */
  function Run(addrs: seq<Address>, outcomes: seq<ConnectResult>, error: Option<Error>): (t: CascadeTrace)
    ensures |t.attempts| <= |addrs|
    ensures forall a :: a in t.attempts ==> a in addrs
    decreases |addrs|
  {
    if addrs == [] then CascadeTrace([], [ErrorEvent(error)], true)
    else if outcomes == [] then CascadeTrace([addrs[0]], [], true)
    else match outcomes[0]
      case Connected => CascadeTrace([addrs[0]], [ConnectEvent], false)
      case Refused(e) => Then([addrs[0]], Run(addrs[1..], outcomes[1..], Some(e)))
  }

  /** The closure state of one `tryConnect` call, with the socket's side of it. */
  class Cascade {
    var addrs: seq<Address>
    var error: Option<Error>
    var listening: bool
    var attempts: seq<Address>
    var inFlight: bool
    var events: seq<Event>

    /** The set-up: both listeners are attached, nothing is attempted yet. */
    constructor (addrs: seq<Address>)
      ensures this.addrs == addrs && error == None && listening
      ensures attempts == [] && !inFlight && events == []
    {
      this.addrs := addrs;
      error := None;
      listening := true;
      attempts := [];
      inFlight := false;
      events := [];
    }

    /** `connectNext()`: shift the front address and connect to it, or emit
        `error` with the last recorded error when none is left. */
    method ConnectNext()
      requires !inFlight
      modifies this
      ensures error == old(error) && listening == old(listening)
      ensures old(addrs) != [] ==>
        addrs == old(addrs)[1..] && attempts == old(attempts) + [old(addrs)[0]] && inFlight && events == old(events)
      ensures old(addrs) == [] ==>
        addrs == [] && attempts == old(attempts) && !inFlight && events == old(events) + [ErrorEvent(error)]
    {
      if addrs != [] {
        var addr := addrs[0];
        addrs := addrs[1..];
        attempts := attempts + [addr];
        inFlight := true;
      } else {
        events := events + [ErrorEvent(error)];
      }
    }

    /** `onConnect()`: detach both listeners and emit `connect`. */
    method OnConnect()
      requires inFlight && listening
      modifies this
      ensures !listening && !inFlight && events == old(events) + [ConnectEvent]
      ensures addrs == old(addrs) && attempts == old(attempts) && error == old(error)
    {
      listening := false;
      inFlight := false;
      events := events + [ConnectEvent];
    }

    /** `onError(e)`: record the error and move on to the next address. */
    method OnError(e: Error)
      requires inFlight && listening
      modifies this
      ensures error == Some(e) && listening
      ensures old(addrs) != [] ==>
        addrs == old(addrs)[1..] && attempts == old(attempts) + [old(addrs)[0]] && inFlight && events == old(events)
      ensures old(addrs) == [] ==>
        addrs == [] && attempts == old(attempts) && !inFlight && events == old(events) + [ErrorEvent(Some(e))]
    {
      error := Some(e);
      inFlight := false;
      ConnectNext();
    }
  }

  /** The cascade so far, `addrs[..n]` dialled and refused, followed by
      what the rest of the list will do. */
  function From(addrs: seq<Address>, outcomes: seq<ConnectResult>, n: nat, err: Option<Error>): CascadeTrace
    requires n <= |addrs| && n <= |outcomes|
  {
    Then(addrs[..n], Run(addrs[n..], outcomes[n..], err))
  }

  lemma StartStep(addrs: seq<Address>, outcomes: seq<ConnectResult>)
    ensures From(addrs, outcomes, 0, None) == Run(addrs, outcomes, None)
  {
    assert addrs[..0] == [] && addrs[0..] == addrs && outcomes[0..] == outcomes;
  }

  lemma RefusedStep(addrs: seq<Address>, outcomes: seq<ConnectResult>, n: nat, err: Option<Error>, e: Error)
    requires n < |addrs| && n < |outcomes| && outcomes[n] == Refused(e)
    ensures From(addrs, outcomes, n, err) == From(addrs, outcomes, n + 1, Some(e))
  {
    assert addrs[n..][1..] == addrs[n + 1..];
    assert outcomes[n..][1..] == outcomes[n + 1..];
    assert addrs[..n] + [addrs[n]] == addrs[..n + 1];
  }

  lemma ConnectedStep(addrs: seq<Address>, outcomes: seq<ConnectResult>, n: nat, err: Option<Error>)
    requires n < |addrs| && n < |outcomes| && outcomes[n] == Connected
    ensures From(addrs, outcomes, n, err) == CascadeTrace(addrs[..n + 1], [ConnectEvent], false)
  {
    assert addrs[..n] + [addrs[n]] == addrs[..n + 1];
  }

  lemma PendingStep(addrs: seq<Address>, outcomes: seq<ConnectResult>, n: nat, err: Option<Error>)
    requires n < |addrs| && n == |outcomes|
    ensures From(addrs, outcomes, n, err) == CascadeTrace(addrs[..n + 1], [], true)
  {
    assert addrs[..n] + [addrs[n]] == addrs[..n + 1];
  }

  lemma EndStep(addrs: seq<Address>, outcomes: seq<ConnectResult>, n: nat, err: Option<Error>)
    requires n == |addrs| && n <= |outcomes|
    ensures From(addrs, outcomes, n, err) == CascadeTrace(addrs, [ErrorEvent(err)], true)
  {
    assert addrs[..n] == addrs && addrs[n..] == [];
  }

  /** `tryConnect(socket, addrs, listener)`, the socket reporting `outcomes[i]`
      for its i-th connection attempt. */
  method TryConnect(addrs: seq<Address>, outcomes: seq<ConnectResult>) returns (t: CascadeTrace)
    ensures t == Run(addrs, outcomes, None)
  {
    var c := new Cascade(addrs);
    c.ConnectNext();
    StartStep(addrs, outcomes);
    if !c.inFlight {
      EndStep(addrs, outcomes, 0, None);
    }
    var n := 0;
    while c.inFlight && n < |outcomes|
      invariant 0 <= n <= |outcomes|
      invariant c.inFlight ==> n < |addrs| && c.listening && c.events == []
      invariant c.inFlight ==> c.addrs == addrs[n + 1..] && c.attempts == addrs[..n + 1]
      invariant c.inFlight ==> Run(addrs, outcomes, None) == From(addrs, outcomes, n, c.error)
      invariant !c.inFlight ==> Run(addrs, outcomes, None) == CascadeTrace(c.attempts, c.events, c.listening)
      decreases |outcomes| - n
    {
      match outcomes[n] {
        case Connected =>
          ConnectedStep(addrs, outcomes, n, c.error);
          c.OnConnect();
        case Refused(e) =>
          RefusedStep(addrs, outcomes, n, c.error, e);
          c.OnError(e);
          if !c.inFlight {
            EndStep(addrs, outcomes, n + 1, Some(e));
          }
      }
      n := n + 1;
    }
    if c.inFlight {
      PendingStep(addrs, outcomes, n, c.error);
    }
    t := CascadeTrace(c.attempts, c.events, c.listening);
  }

  /** Attempts follow the list from its front, one each, and exactly one event
      is emitted once the cascade ends; it is `connect` exactly when the
      listeners were detached. */
  lemma {:induction false} RunInOrder(addrs: seq<Address>, outcomes: seq<ConnectResult>, err: Option<Error>)
    ensures var t := Run(addrs, outcomes, err);
      && |t.attempts| <= |addrs|
      && t.attempts == addrs[..|t.attempts|]
      && |t.events| <= 1
      && (t.events == [ConnectEvent] <==> !t.listening)
      && (t.events == [] <==> |t.attempts| > |outcomes|)
  {
    if addrs != [] && outcomes != [] && outcomes[0].Refused? {
      RunInOrder(addrs[1..], outcomes[1..], Some(outcomes[0].error));
      var t := Run(addrs[1..], outcomes[1..], Some(outcomes[0].error));
      assert [addrs[0]] + addrs[1..][..|t.attempts|] == addrs[..|t.attempts| + 1];
    }
  }

  /** When the k-th attempt is the first to succeed, exactly k + 1 addresses
      are tried and `connect` is emitted, with the listeners detached. */
  lemma {:induction false} RunFirstSuccess(addrs: seq<Address>, outcomes: seq<ConnectResult>, err: Option<Error>, k: nat)
    requires k < |addrs| && k < |outcomes| && outcomes[k] == Connected
    requires forall i :: 0 <= i < k ==> outcomes[i].Refused?
    ensures Run(addrs, outcomes, err) == CascadeTrace(addrs[..k + 1], [ConnectEvent], false)
  {
    if k > 0 {
      RunFirstSuccess(addrs[1..], outcomes[1..], Some(outcomes[0].error), k - 1);
      assert [addrs[0]] + addrs[1..][..k] == addrs[..k + 1];
    }
  }

  /** When every attempt fails, each address is tried once and `error` is
      emitted with the last attempt's error (the initial one for an empty
      list); the listeners stay attached. */
  lemma {:induction false} RunExhausted(addrs: seq<Address>, outcomes: seq<ConnectResult>, err: Option<Error>)
    requires |outcomes| >= |addrs|
    requires forall i :: 0 <= i < |addrs| ==> outcomes[i].Refused?
    ensures Run(addrs, outcomes, err) ==
      CascadeTrace(addrs, [ErrorEvent(if addrs == [] then err else Some(outcomes[|addrs| - 1].error))], true)
  {
    if addrs != [] {
      RunExhausted(addrs[1..], outcomes[1..], Some(outcomes[0].error));
      assert [addrs[0]] + addrs[1..] == addrs;
    }
  }
}
