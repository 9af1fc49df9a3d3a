/**
 * The subscriber side (internal/handler/websocket.go, and the same code on the
 * globals of main.go): the registry of open WebSocket connections, the bounded
 * queue of delete events, the per-connection lifecycle and the dispatch loop.
 * Everything runs sequentially here: each registry operation is atomic, and the
 * dispatch loop drains the events pending when it is called.
 */
module Hub {
  import opened Model
  import Origin

  /** A connection, identified by its *websocket.Conn pointer. */
  type Conn = nat

  /** Buffer size of the `Broadcast` channel. */
  const QueueCapacity: nat := 100

  /** The `Clients` map, used as a set guarded by `ClientMu`. */
  class Registry {
    var members: set<Conn>

    constructor ()
      ensures members == {}
    {
      members := {};
    }

    /** Adds `conn` unconditionally and reports the new total. */
    method Register(conn: Conn) returns (total: nat)
      modifies this
      ensures members == old(members) + {conn}
      ensures total == |members|
    {
      members := members + {conn};
      total := |members|;
    }

    /** Removes `conn` if present; removing an absent connection changes nothing. */
    method Deregister(conn: Conn) returns (remaining: nat)
      modifies this
      ensures members == old(members) - {conn}
      ensures remaining == |members|
    {
      members := members - {conn};
      remaining := |members|;
    }

    /** The point-in-time copy taken under the read lock: every member exactly once. */
    method Snapshot() returns (snapshot: seq<Conn>)
      ensures forall c :: c in snapshot <==> c in members
      ensures forall i, j :: 0 <= i < j < |snapshot| ==> snapshot[i] != snapshot[j]
      ensures |snapshot| == |members|
    {
      snapshot := [];
      var rest := members;
      while rest != {}
        invariant rest <= members
        invariant forall c :: c in snapshot <==> c in members - rest
        invariant forall i, j :: 0 <= i < j < |snapshot| ==> snapshot[i] != snapshot[j]
        invariant |snapshot| == |members - rest|
        decreases |rest|
      {
        var c :| c in rest;
        assert members - (rest - {c}) == (members - rest) + {c};
        snapshot := snapshot + [c];
        rest := rest - {c};
      }
    }
  }

  /** The `Broadcast` channel: a bounded FIFO of delete events. */
  class EventQueue {
    var items: seq<DeleteEvent>
    const capacity: nat

    constructor (capacity: nat)
      ensures items == [] && this.capacity == capacity
    {
      items := [];
      this.capacity := capacity;
    }

    /** A send on a channel with room (a full channel would block the sender). */
    method Send(event: DeleteEvent)
      requires |items| < capacity
      modifies this
      ensures items == old(items) + [event]
    {
      items := items + [event];
    }

    /** A receive: the oldest event leaves first. */
    method Receive() returns (event: DeleteEvent)
      requires items != []
      modifies this
      ensures event == old(items)[0] && items == old(items)[1..]
    {
      event := items[0];
      items := items[1..];
    }
  }

  /** How a subscription request ended up. */
  datatype Subscription =
    | Refused
    | Open(total: nat)
    | Closed(total: nat, remaining: nat)

  /**
   * HandleWebSocket: the upgrade is refused, before any registry change, unless the
   * Origin is allowed and the handshake succeeds; then the connection is registered
   * and kept until the first failed read of the keep-alive loop deregisters it.
   * `readResults` are the outcomes of the successive ReadJSON calls that have happened.
   */
  method ServeSubscriber(registry: Registry, allowedOrigins: seq<string>, origin: string,
                         handshakeOk: bool, conn: Conn, readResults: seq<bool>)
    returns (outcome: Subscription)
    requires conn !in registry.members
    modifies registry
    ensures outcome.Refused? <==> !(origin in allowedOrigins && handshakeOk)
    ensures outcome.Refused? ==> registry.members == old(registry.members)
    ensures outcome.Open? ==> registry.members == old(registry.members) + {conn}
                              && outcome.total == |registry.members|
                              && forall i :: 0 <= i < |readResults| ==> readResults[i]
    ensures outcome.Closed? ==> registry.members == old(registry.members)
                                && outcome.total == |old(registry.members)| + 1
                                && outcome.remaining == |registry.members|
                                && false in readResults
  {
    var upgrader := Origin.CreateUpgrader(allowedOrigins);
    if !Origin.CheckOrigin(upgrader, origin) || !handshakeOk {
      return Refused;
    }
    var total := registry.Register(conn);
    for i := 0 to |readResults|
      invariant registry.members == old(registry.members) + {conn}
      invariant forall k :: 0 <= k < i ==> readResults[k]
    {
      if !readResults[i] {
        var remaining := registry.Deregister(conn);
        return Closed(total, remaining);
      }
    }
    outcome := Open(total);
  }

  /** The members a dispatch round removes: those in the snapshot whose write failed. */
  function FailedWrites(snapshot: seq<Conn>, writeOk: Conn -> bool): set<Conn> {
    set c | c in snapshot && !writeOk(c)
  }

  /** One write of the fan-out: a client whose write fails is closed and deregistered. */
  method WriteOrEvict(registry: Registry, client: Conn, writeSucceeded: bool)
    modifies registry
    ensures registry.members == if writeSucceeded then old(registry.members) else old(registry.members) - {client}
  {
    if !writeSucceeded {
      var _ := registry.Deregister(client);
    }
  }

  /**
   * The fan-out over a snapshot: one write attempt per member, in snapshot order, a
   * failure never stopping the rest; each member whose write failed is deregistered.
   */
  method Fanout(registry: Registry, snapshot: seq<Conn>, writeOk: Conn -> bool) returns (attempts: seq<Conn>)
    modifies registry
    ensures attempts == snapshot
    ensures registry.members == old(registry.members) - FailedWrites(snapshot, writeOk)
  {
    attempts := [];
    ghost var failed: set<Conn> := {};
    for i := 0 to |snapshot|
      invariant attempts == snapshot[..i]
      invariant forall c :: c in failed <==> c in snapshot[..i] && !writeOk(c)
      invariant registry.members == old(registry.members) - failed
    {
      var client := snapshot[i];
      assert snapshot[..i + 1] == snapshot[..i] + [client];
      attempts := attempts + [client];
      WriteOrEvict(registry, client, writeOk(client));
      if !writeOk(client) {
        failed := failed + {client};
      }
    }
    assert snapshot[..|snapshot|] == snapshot;
  }

  /**
   * One turn of HandleBroadcast: take the oldest event, snapshot the registry, then
   * fan the event out over the snapshot. `writeOk` says which writes succeed.
   */
  method DispatchOne(registry: Registry, queue: EventQueue, writeOk: Conn -> bool)
    returns (event: DeleteEvent, snapshot: seq<Conn>, attempts: seq<Conn>)
    requires queue.items != []
    modifies registry, queue
    ensures event == old(queue.items)[0] && queue.items == old(queue.items)[1..]
    ensures forall c :: c in snapshot <==> c in old(registry.members)
    ensures forall i, j :: 0 <= i < j < |snapshot| ==> snapshot[i] != snapshot[j]
    ensures attempts == snapshot
    ensures registry.members == old(registry.members) - FailedWrites(snapshot, writeOk)
  {
    event := queue.Receive();
    snapshot := registry.Snapshot();
    attempts := Fanout(registry, snapshot, writeOk);
  }

  /** The members that fail a write during one of the first `n` rounds. */
  function FailedBy(members: set<Conn>, n: nat, writeOk: (nat, Conn) -> bool): set<Conn> {
    set c | c in members && exists i :: 0 <= i < n && !writeOk(i, c)
  }

  /**
   * HandleBroadcast over the events pending now: they are dispatched in the order
   * they were enqueued, and a member leaves the registry exactly when one of its
   * writes failed. `writeOk(i, c)` says whether the write of the i-th event to c
   * succeeds. `rounds[i]` lists who was sent the i-th event: every connection
   * registered at that round, each exactly once.
   */
  method Drain(registry: Registry, queue: EventQueue, writeOk: (nat, Conn) -> bool)
    returns (dispatched: seq<DeleteEvent>, ghost rounds: seq<seq<Conn>>)
    modifies registry, queue
    ensures dispatched == old(queue.items) && queue.items == []
    ensures registry.members == old(registry.members) - FailedBy(old(registry.members), |dispatched|, writeOk)
    ensures |rounds| == |dispatched|
    ensures forall i :: 0 <= i < |rounds| ==>
              forall c :: c in rounds[i] <==> c in old(registry.members) - FailedBy(old(registry.members), i, writeOk)
    ensures forall i :: 0 <= i < |rounds| ==>
              forall j, k :: 0 <= j < k < |rounds[i]| ==> rounds[i][j] != rounds[i][k]
  {
    dispatched := [];
    rounds := [];
    while queue.items != []
      invariant dispatched + queue.items == old(queue.items)
      invariant registry.members == old(registry.members) - FailedBy(old(registry.members), |dispatched|, writeOk)
      invariant |rounds| == |dispatched|
      invariant forall i :: 0 <= i < |rounds| ==>
                  forall c :: c in rounds[i] <==> c in old(registry.members) - FailedBy(old(registry.members), i, writeOk)
      invariant forall i :: 0 <= i < |rounds| ==>
                  forall j, k :: 0 <= j < k < |rounds[i]| ==> rounds[i][j] != rounds[i][k]
      decreases |queue.items|
    {
      var round := |dispatched|;
      ghost var before := registry.members;
      var event, snapshot, attempts := DispatchOne(registry, queue, (c: Conn) => writeOk(round, c));
      dispatched := dispatched + [event];
      rounds := rounds + [snapshot];
      assert FailedWrites(snapshot, (c: Conn) => writeOk(round, c)) == set c | c in before && !writeOk(round, c);
      assert FailedBy(old(registry.members), round + 1, writeOk)
          == FailedBy(old(registry.members), round, writeOk)
           + (set c | c in old(registry.members) && !writeOk(round, c));
    }
  }
}
