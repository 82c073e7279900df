/**
 * The WebSocket connection manager: a registry of live connections and
 * the fan-out of one message to all of them, pruning the connections
 * whose send failed.
 *
 * The transport is not modelled. Whether `accept()` succeeds is a boolean
 * argument, and whether a send to a connection raises is decided by the
 * set `failing` of connections whose send raises. The model is sequential:
 * nothing else runs between the steps of one call.
 */
module Connections {

  /** One live WebSocket connection; two handles are the same connection iff they are equal. */
  datatype Handle = Handle(id: nat)

  /** What a broadcast sends: a JSON object (kept in its encoded form, never inspected) or a text frame. */
  datatype Payload = JsonPayload(encoded: string) | TextPayload(text: string)

  /** One send attempt and whether it went through without raising. */
  datatype Attempt = Attempt(target: Handle, payload: Payload, delivered: bool)

  /** The connections a log of attempts was sent to. */
  function Targets(log: seq<Attempt>): set<Handle>
  {
    set i | 0 <= i < |log| :: log[i].target
  }

  /** The connections whose attempt raised. */
  function FailedTargets(log: seq<Attempt>): set<Handle>
  {
    set i | 0 <= i < |log| && !log[i].delivered :: log[i].target
  }

  /** No connection was tried twice. */
  predicate OncePerTarget(log: seq<Attempt>)
  {
    forall i, j :: 0 <= i < j < |log| ==> log[i].target != log[j].target
  }

  lemma TargetsAppend(log: seq<Attempt>, a: Attempt)
    ensures Targets(log + [a]) == Targets(log) + {a.target}
  {
    var extended := log + [a];
    assert extended[|log|] == a;
    forall h | h in Targets(log)
      ensures h in Targets(extended)
    {
      var i :| 0 <= i < |log| && log[i].target == h;
      assert extended[i] == log[i];
    }
  }

  function Elems(s: seq<Handle>): set<Handle>
  {
    set x | x in s
  }

  lemma ElemsPrefix(s: seq<Handle>, i: nat)
    requires i < |s|
    ensures Elems(s[..i + 1]) == Elems(s[..i]) + {s[i]}
  {
  }

  /**
   * A log made of one attempt per connection in `members`, each carrying
   * `payload`, delivered exactly when its target is not failing.
   */
  ghost predicate FannedOut(log: seq<Attempt>, members: set<Handle>, payload: Payload, failing: set<Handle>)
  {
    && Targets(log) == members
    && |log| == |members|
    && OncePerTarget(log)
    && (forall i :: 0 <= i < |log| ==>
          log[i].payload == payload && (log[i].delivered <==> log[i].target !in failing))
  }

  /** Trying one more connection, not tried before, extends a fanned-out log. */
  lemma FannedOutStep(log: seq<Attempt>, done: set<Handle>, payload: Payload, failing: set<Handle>, next: Handle, delivered: bool)
    requires FannedOut(log, done, payload, failing)
    requires next !in done && delivered == (next !in failing)
    ensures FannedOut(log + [Attempt(next, payload, delivered)], done + {next}, payload, failing)
  {
    var a := Attempt(next, payload, delivered);
    TargetsAppend(log, a);
    var extended := log + [a];
    forall i | 0 <= i < |log|
      ensures extended[i] == log[i] && log[i].target in Targets(log)
    {
    }
  }

  /**
   * A failure in one attempt does not hide the others: the failed targets of
   * a fanned-out log are exactly the failing members, however the attempts
   * were ordered.
   */
  lemma FailedAreFailingMembers(log: seq<Attempt>, members: set<Handle>, payload: Payload, failing: set<Handle>)
    requires FannedOut(log, members, payload, failing)
    ensures FailedTargets(log) == members * failing
    ensures Targets(log) - FailedTargets(log) == members - failing
  {
  }

  class ConnectionManager {
    /** The set of live connections. */
    var activeConnections: set<Handle>

    constructor ()
      ensures activeConnections == {}
    {
      activeConnections := {};
    }

    /**
     * Accepts the connection and then registers it. `acceptSucceeds` says
     * whether the accept step returns or raises; when it raises, the
     * connection is not registered and the caller sees the failure.
     */
    method Connect(ws: Handle, acceptSucceeds: bool) returns (accepted: bool)
      modifies this
      ensures accepted == acceptSucceeds
      ensures accepted ==> activeConnections == old(activeConnections) + {ws}
      ensures !accepted ==> activeConnections == old(activeConnections)
    {
      accepted := acceptSucceeds;
      if !accepted {
        return;
      }
      activeConnections := activeConnections + {ws};
    }

    /** Unregisters the connection; one that is not registered is ignored. */
    method Disconnect(ws: Handle)
      modifies this
      ensures activeConnections == old(activeConnections) - {ws}
      ensures ws !in old(activeConnections) ==> activeConnections == old(activeConnections)
    {
      activeConnections := activeConnections - {ws};
    }

    /**
     * The send loop of a broadcast: one attempt per registered connection,
     * in whatever order the set yields them, collecting the connections
     * whose send raised. It changes nothing.
     */
    method SendToEach(payload: Payload, failing: set<Handle>) returns (log: seq<Attempt>, disconnected: seq<Handle>)
      ensures FannedOut(log, activeConnections, payload, failing)
      ensures Elems(disconnected) == activeConnections * failing
    {
      log, disconnected := [], [];
      var pending := activeConnections;
      while pending != {}
        invariant pending <= activeConnections
        invariant FannedOut(log, activeConnections - pending, payload, failing)
        invariant Elems(disconnected) == (activeConnections - pending) * failing
        decreases pending
      {
        var connection :| connection in pending;
        var delivered := connection !in failing;
        FannedOutStep(log, activeConnections - pending, payload, failing, connection, delivered);
        assert activeConnections - pending + {connection} == activeConnections - (pending - {connection});
        log := log + [Attempt(connection, payload, delivered)];
        if !delivered {
          assert Elems(disconnected + [connection]) == Elems(disconnected) + {connection};
          disconnected := disconnected + [connection];
        }
        pending := pending - {connection};
      }
      assert activeConnections - pending == activeConnections;
    }

    /**
     * A broadcast over all registered connections: send to each, then
     * unregister those whose send raised. It never raises itself.
     */
    method FanOut(payload: Payload, failing: set<Handle>) returns (log: seq<Attempt>)
      modifies this
      ensures FannedOut(log, old(activeConnections), payload, failing)
      ensures activeConnections == old(activeConnections) - failing
    {
      var disconnected;
      log, disconnected := SendToEach(payload, failing);
      var i := 0;
      while i < |disconnected|
        invariant 0 <= i <= |disconnected|
        invariant activeConnections == old(activeConnections) - Elems(disconnected[..i])
      {
        ElemsPrefix(disconnected, i);
        Disconnect(disconnected[i]);
        i := i + 1;
      }
      assert disconnected[..i] == disconnected;
    }

    /**
     * Sends the JSON message to every registered connection. With no
     * connections it returns at once. Afterwards exactly the connections
     * whose send raised are gone, so K members with F failing sends leave
     * K - F members.
     */
    method Broadcast(message: string, failing: set<Handle>) returns (log: seq<Attempt>)
      modifies this
      ensures FannedOut(log, old(activeConnections), JsonPayload(message), failing)
      ensures old(activeConnections) == {} ==> log == []
      ensures activeConnections == old(activeConnections) - FailedTargets(log)
      ensures activeConnections == old(activeConnections) - failing
      ensures |activeConnections| == |old(activeConnections)| - |FailedTargets(log)|
    {
      if activeConnections == {} {
        return [];
      }
      log := FanOut(JsonPayload(message), failing);
      FailedAreFailingMembers(log, old(activeConnections), JsonPayload(message), failing);
    }

    /** The same as Broadcast, for a text message. */
    method BroadcastString(message: string, failing: set<Handle>) returns (log: seq<Attempt>)
      modifies this
      ensures FannedOut(log, old(activeConnections), TextPayload(message), failing)
      ensures old(activeConnections) == {} ==> log == []
      ensures activeConnections == old(activeConnections) - FailedTargets(log)
      ensures activeConnections == old(activeConnections) - failing
      ensures |activeConnections| == |old(activeConnections)| - |FailedTargets(log)|
    {
      if activeConnections == {} {
        return [];
      }
      log := FanOut(TextPayload(message), failing);
      FailedAreFailingMembers(log, old(activeConnections), TextPayload(message), failing);
    }
  }

  /** Disconnecting the same connection twice has the effect of disconnecting it once. */
  method DisconnectTwice(manager: ConnectionManager, ws: Handle)
    modifies manager
    ensures manager.activeConnections == old(manager.activeConnections) - {ws}
  {
    manager.Disconnect(ws);
    ghost var once := manager.activeConnections;
    manager.Disconnect(ws);
    assert manager.activeConnections == once;
  }

  /** Connecting an already registered connection leaves the registry as it was. */
  method ReconnectIsNoOp(manager: ConnectionManager, ws: Handle)
    requires ws in manager.activeConnections
    modifies manager
    ensures manager.activeConnections == old(manager.activeConnections)
  {
    var accepted := manager.Connect(ws, true);
  }
}
