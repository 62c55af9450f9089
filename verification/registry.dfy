/** The server registry of the daemon (src/bin/notificationd/server.rs): the connected
    clients, the optional database, and the process-wide notification counter.  The
    mutex and the atomic become plain values threaded through each operation. */
module Registry {

  import opened Basics
  import opened Text
  import opened Clients
  import opened Database

  datatype ServerState = ServerState(clients: seq<ClientHandle>, db: Option<Db>)

  /** `ServerState::new`: no clients and no database. */
  function New(): (s: ServerState)
    ensures ClientsLen(s) == 0 && !HasDb(s)
  {
    ServerState([], None)
  }

  function ClientsLen(s: ServerState): nat {
    |s.clients|
  }

  function HasDb(s: ServerState): bool {
    s.db.Some?
  }

  // ---------------------------------------------------------------------------
  // The notification counter (`NOTIFICATION_COUNTER`)
  // ---------------------------------------------------------------------------

  /** `next_id`: the id drawn and the counter after the draw. */
  function NextId(counter: nat): (r: (nat, nat)) {
    (counter, counter + 1)
  }

  /** `set_id`: the counter after it is overwritten. */
  function SetId(counter: nat, id: nat): nat {
    id
  }

  /** The ids `k` successive `next_id` calls draw, and the counter after them. */
  function Draws(counter: nat, k: nat): (r: (seq<nat>, nat))
    decreases k
  {
    if k == 0 then ([], counter)
    else
      var first := NextId(counter);
      var rest := Draws(first.1, k - 1);
      ([first.0] + rest.0, rest.1)
  }

  /** Successive draws give consecutive ids starting at the counter, and advance it by
      their number; from a fresh counter the ids are 0, 1, 2, ... */
  lemma {:induction false} DrawsConsecutive(counter: nat, k: nat)
    ensures |Draws(counter, k).0| == k
    ensures forall i :: 0 <= i < k ==> Draws(counter, k).0[i] == counter + i
    ensures Draws(counter, k).1 == counter + k
    decreases k
  {
    if k > 0 {
      DrawsConsecutive(counter + 1, k - 1);
    }
  }

  /** After `set_id(id)` the next draw returns exactly `id`, whatever the counter was. */
  lemma SetThenNext(counter: nat, id: nat)
    ensures NextId(SetId(counter, id)).0 == id
    ensures NextId(SetId(counter, id)).1 == id + 1
  {
  }

  // ---------------------------------------------------------------------------
  // Clients
  // ---------------------------------------------------------------------------

  function AddClient(s: ServerState, h: ClientHandle): (r: ServerState) {
    s.(clients := s.clients + [h])
  }

  function Broadcast(s: ServerState, msg: string): (r: ServerState) {
    s.(clients := WriteAll(s.clients, msg))
  }

  /** `broadcast_notification`: the state after the writes, and how many succeeded. */
  function BroadcastNotification(s: ServerState, msg: string): (r: (ServerState, nat)) {
    var w := NotifyAll(s.clients, msg);
    (s.(clients := w.0), w.1)
  }

  /** `add_client` appends exactly the new handle and changes nothing else. */
  lemma AddClientAppends(s: ServerState, h: ClientHandle)
    ensures ClientsLen(AddClient(s, h)) == ClientsLen(s) + 1
    ensures AddClient(s, h).clients[..ClientsLen(s)] == s.clients
    ensures AddClient(s, h).clients[ClientsLen(s)] == h
    ensures AddClient(s, h).db == s.db
  {
    assert (s.clients + [h])[..|s.clients|] == s.clients;
  }

  /** `broadcast` queues the message on every open channel, whether the client is logged
      in or consuming, and changes nothing else. */
  lemma BroadcastReachesAll(s: ServerState, msg: string)
    ensures ClientsLen(Broadcast(s, msg)) == ClientsLen(s)
    ensures Broadcast(s, msg).db == s.db
    ensures forall i :: 0 <= i < ClientsLen(s) ==>
      var h, h' := s.clients[i], Broadcast(s, msg).clients[i];
      && h'.peer == h.peer && h'.state == h.state && h'.open == h.open
      && h'.outbox == if h.open then h.outbox + [msg] else h.outbox
  {
    WriteAllSpec(s.clients, msg);
  }

  /** `broadcast_notification` queues the message exactly on the clients that consume
      and have an open channel, leaves every other client as it was, and returns their
      number, which is at most `clients_len`. */
  lemma BroadcastNotificationReachesConsumers(s: ServerState, msg: string)
    ensures var r := BroadcastNotification(s, msg);
      && ClientsLen(r.0) == ClientsLen(s) && r.0.db == s.db
      && r.1 == |Receivers(s.clients)| && r.1 <= ClientsLen(s)
      && forall i :: 0 <= i < ClientsLen(s) ==>
           var h, h' := s.clients[i], r.0.clients[i];
           && h'.peer == h.peer && h'.state == h.state && h'.open == h.open
           && h'.outbox == if Receives(h) then h.outbox + [msg] else h.outbox
  {
    NotifyAllWrites(s.clients, msg);
    NotifyAllCount(s.clients, msg);
  }

  /** One entry of `who`: login, peer and consume flag. */
  datatype WhoEntry = WhoEntry(name: string, peer: string, consume: bool)

  /** The logged-in clients, in list order. */
  function Roster(cs: seq<ClientHandle>): (r: seq<WhoEntry>)
    ensures |r| <= |cs|
    decreases |cs|
  {
    if |cs| == 0 then []
    else
      var h := cs[|cs| - 1];
      Roster(cs[..|cs| - 1])
        + if h.state.name.Some? then [WhoEntry(h.state.name.value, h.peer, h.state.consume)] else []
  }

  function Who(s: ServerState): seq<WhoEntry> {
    Roster(s.clients)
  }

  /** The roster of two lists one after the other is their rosters one after the other:
      `who` keeps list order. */
  lemma {:induction false} RosterAppend(a: seq<ClientHandle>, b: seq<ClientHandle>)
    ensures Roster(a + b) == Roster(a) + Roster(b)
    decreases |b|
  {
    if |b| == 0 {
      AppendEmpty(a, b);
    } else {
      DropLastAppend(a, b);
      RosterAppend(a, b[..|b| - 1]);
    }
  }

  /** The roster of one client: an entry exactly when it is logged in. */
  lemma RosterSingle(h: ClientHandle)
    ensures Roster([h]) == if h.state.name.Some? then [WhoEntry(h.state.name.value, h.peer, h.state.consume)] else []
  {
    assert [h][..0] == [];
  }

  /** An entry is in the roster exactly when some client is logged in under that name,
      at that peer, with that consume flag. */
  lemma {:induction false} RosterMembers(cs: seq<ClientHandle>, e: WhoEntry)
    ensures e in Roster(cs) <==>
      exists i :: 0 <= i < |cs| && cs[i].state.name == Some(e.name) && cs[i].peer == e.peer
                  && cs[i].state.consume == e.consume
    decreases |cs|
  {
    if |cs| > 0 {
      var init := cs[..|cs| - 1];
      RosterMembers(init, e);
      if e in Roster(init) {
        var i :| 0 <= i < |init| && init[i].state.name == Some(e.name) && init[i].peer == e.peer
                 && init[i].state.consume == e.consume;
        assert cs[i] == init[i];
      }
      if exists i :: 0 <= i < |cs| && cs[i].state.name == Some(e.name) && cs[i].peer == e.peer
                     && cs[i].state.consume == e.consume {
        var i :| 0 <= i < |cs| && cs[i].state.name == Some(e.name) && cs[i].peer == e.peer
                 && cs[i].state.consume == e.consume;
        if i < |init| { assert init[i] == cs[i]; }
      }
    }
  }

  // ---------------------------------------------------------------------------
  // The client list only grows
  // ---------------------------------------------------------------------------

  datatype Op = Add(h: ClientHandle) | SendAll(msg: string) | Notify(msg: string)

  function Apply(s: ServerState, op: Op): ServerState {
    match op
    case Add(h) => AddClient(s, h)
    case SendAll(msg) => Broadcast(s, msg)
    case Notify(msg) => BroadcastNotification(s, msg).0
  }

  function Run(s: ServerState, ops: seq<Op>): ServerState
    decreases |ops|
  {
    if |ops| == 0 then s else Run(Apply(s, ops[0]), ops[1..])
  }

  /** No registry operation removes a client or moves one: after any sequence of them
      `clients_len` has not decreased and every earlier client keeps its place and peer. */
  lemma {:induction false} RunKeepsClients(s: ServerState, ops: seq<Op>)
    ensures ClientsLen(Run(s, ops)) >= ClientsLen(s)
    ensures forall i :: 0 <= i < ClientsLen(s) ==> Run(s, ops).clients[i].peer == s.clients[i].peer
    decreases |ops|
  {
    if |ops| > 0 {
      var s1 := Apply(s, ops[0]);
      match ops[0] {
        case Add(h) => AddClientAppends(s, h);
        case SendAll(msg) => BroadcastReachesAll(s, msg);
        case Notify(msg) => BroadcastNotificationReachesConsumers(s, msg);
      }
      RunKeepsClients(s1, ops[1..]);
    }
  }
}
