/** The older server registry (src/server.rs): a client list only, no database and no
    counter in use.  Its broadcast loops are the same as the daemon's and reuse the
    shared write loops. */
module LegacyRegistry {

  import opened Clients

  datatype LegacyState = LegacyState(clients: seq<ClientHandle>)

  /** `ServerState::new`: no clients. */
  function New(): (s: LegacyState)
    ensures |s.clients| == 0
  {
    LegacyState([])
  }

  function AddClient(s: LegacyState, h: ClientHandle): LegacyState {
    LegacyState(s.clients + [h])
  }

  function Broadcast(s: LegacyState, msg: string): LegacyState {
    LegacyState(WriteAll(s.clients, msg))
  }

  function BroadcastNotification(s: LegacyState, msg: string): (LegacyState, nat) {
    var w := NotifyAll(s.clients, msg);
    (LegacyState(w.0), w.1)
  }

  /** `add_client` appends exactly the new handle. */
  lemma AddClientAppends(s: LegacyState, h: ClientHandle)
    ensures |AddClient(s, h).clients| == |s.clients| + 1
    ensures AddClient(s, h).clients[..|s.clients|] == s.clients
    ensures AddClient(s, h).clients[|s.clients|] == h
  {
    assert (s.clients + [h])[..|s.clients|] == s.clients;
  }

  /** `broadcast` attempts every client, ignoring flags and failures. */
  lemma BroadcastReachesAll(s: LegacyState, msg: string)
    ensures |Broadcast(s, msg).clients| == |s.clients|
    ensures forall i :: 0 <= i < |s.clients| ==>
      var h, h' := s.clients[i], Broadcast(s, msg).clients[i];
      && h'.peer == h.peer && h'.state == h.state && h'.open == h.open
      && h'.outbox == if h.open then h.outbox + [msg] else h.outbox
  {
    WriteAllSpec(s.clients, msg);
  }

  /** `broadcast_notification` reaches and counts exactly the consuming clients whose
      channel is open. */
  lemma BroadcastNotificationReachesConsumers(s: LegacyState, msg: string)
    ensures var r := BroadcastNotification(s, msg);
      && |r.0.clients| == |s.clients|
      && r.1 == |Receivers(s.clients)| && r.1 <= |s.clients|
      && forall i :: 0 <= i < |s.clients| ==>
           var h, h' := s.clients[i], r.0.clients[i];
           && h'.peer == h.peer && h'.state == h.state && h'.open == h.open
           && h'.outbox == if Receives(h) then h.outbox + [msg] else h.outbox
  {
    NotifyAllWrites(s.clients, msg);
    NotifyAllCount(s.clients, msg);
  }

  datatype Op = Add(h: ClientHandle) | SendAll(msg: string) | Notify(msg: string)

  function Apply(s: LegacyState, op: Op): LegacyState {
    match op
    case Add(h) => AddClient(s, h)
    case SendAll(msg) => Broadcast(s, msg)
    case Notify(msg) => BroadcastNotification(s, msg).0
  }

  function Run(s: LegacyState, ops: seq<Op>): LegacyState
    decreases |ops|
  {
    if |ops| == 0 then s else Run(Apply(s, ops[0]), ops[1..])
  }

  /** The client list only grows: no operation removes or reorders a client. */
  lemma {:induction false} RunKeepsClients(s: LegacyState, ops: seq<Op>)
    ensures |Run(s, ops).clients| >= |s.clients|
    ensures forall i :: 0 <= i < |s.clients| ==> Run(s, ops).clients[i].peer == s.clients[i].peer
    decreases |ops|
  {
    if |ops| > 0 {
      match ops[0] {
        case Add(h) => AddClientAppends(s, h);
        case SendAll(msg) => BroadcastReachesAll(s, msg);
        case Notify(msg) => BroadcastNotificationReachesConsumers(s, msg);
      }
      RunKeepsClients(Apply(s, ops[0]), ops[1..]);
    }
  }
}
