/** A connected session as the server keeps it (`ClientState` and `ClientHandle` in
    src/server/client.rs).  The socket, the writer thread and the channel are replaced by
    two values: whether the channel still accepts writes, and the writes queued on it. */
module Clients {

  import opened Basics
  import opened Notifications

  /** The login name (set at most once), the notification being built and whether the
      session subscribes to notifications. */
  datatype ClientState = ClientState(name: Option<string>, details: NotificationDetails, consume: bool)

  /** `ClientState::new`: not logged in, not consuming, nothing built yet. */
  function NewClientState(): (s: ClientState)
    ensures s.name.None? && !s.consume && s.details == New()
  {
    ClientState(None, New(), false)
  }

  /** `peer` is the socket address as text. */
  datatype ClientHandle = ClientHandle(peer: string, state: ClientState, open: bool, outbox: seq<string>)

  /** `ClientHandle::write`: the text is queued when the channel is open; the flag says
      whether it was. */
  function Write(h: ClientHandle, msg: string): (r: (ClientHandle, bool))
    ensures r.1 == h.open
    ensures r.0.peer == h.peer && r.0.state == h.state && r.0.open == h.open
    ensures r.0.outbox == (if h.open then h.outbox + [msg] else h.outbox)
  {
    if h.open then (h.(outbox := h.outbox + [msg]), true) else (h, false)
  }

  /** Several writes in order; all are queued when the channel is open. */
  function WriteEach(h: ClientHandle, msgs: seq<string>): (r: ClientHandle)
    ensures r.peer == h.peer && r.state == h.state && r.open == h.open
    ensures r.outbox == (if h.open then h.outbox + msgs else h.outbox)
  {
    if h.open then h.(outbox := h.outbox + msgs) else h
  }

  /** A client a notification reaches: it consumes and its channel accepts the write. */
  predicate Receives(h: ClientHandle) {
    h.state.consume && h.open
  }

  /** The positions of the clients a notification reaches. */
  function Receivers(cs: seq<ClientHandle>): set<nat> {
    set i: nat | i < |cs| && Receives(cs[i])
  }

  /** The write loop of `broadcast`: every client is written to, whatever its flags, and
      failures are ignored. */
  function WriteAll(cs: seq<ClientHandle>, msg: string): (r: seq<ClientHandle>)
    ensures |r| == |cs|
    decreases |cs|
  {
    if |cs| == 0 then [] else WriteAll(cs[..|cs| - 1], msg) + [Write(cs[|cs| - 1], msg).0]
  }

  /** The write loop of `broadcast_notification`: only consuming clients are written to,
      and the successful writes are counted. */
  function NotifyAll(cs: seq<ClientHandle>, msg: string): (r: (seq<ClientHandle>, nat))
    ensures |r.0| == |cs|
    decreases |cs|
  {
    if |cs| == 0 then ([], 0)
    else
      var before := NotifyAll(cs[..|cs| - 1], msg);
      var h := cs[|cs| - 1];
      if h.state.consume then
        var w := Write(h, msg);
        (before.0 + [w.0], before.1 + if w.1 then 1 else 0)
      else (before.0 + [h], before.1)
  }

  /** `broadcast` writes to every client and changes nothing else. */
  lemma {:induction false} WriteAllSpec(cs: seq<ClientHandle>, msg: string)
    ensures forall i :: 0 <= i < |cs| ==> WriteAll(cs, msg)[i] == Write(cs[i], msg).0
    decreases |cs|
  {
    if |cs| > 0 {
      WriteAllSpec(cs[..|cs| - 1], msg);
    }
  }

  /** `broadcast_notification` writes to exactly the consuming clients and leaves the
      others as they were. */
  lemma {:induction false} NotifyAllWrites(cs: seq<ClientHandle>, msg: string)
    ensures forall i :: 0 <= i < |cs| ==>
      NotifyAll(cs, msg).0[i] == if cs[i].state.consume then Write(cs[i], msg).0 else cs[i]
    decreases |cs|
  {
    if |cs| > 0 {
      NotifyAllWrites(cs[..|cs| - 1], msg);
    }
  }

  /** The receivers of a list with one more client at the end. */
  lemma ReceiversSnoc(cs: seq<ClientHandle>, h: ClientHandle)
    ensures Receivers(cs + [h]) == Receivers(cs) + if Receives(h) then {|cs|} else {}
    ensures |cs| !in Receivers(cs)
  {
    var ds := cs + [h];
    forall i: nat | i < |cs| ensures ds[i] == cs[i] { }
  }

  /** The count `broadcast_notification` returns is the number of clients that consume
      and whose channel accepted the write; so it never exceeds the number of clients. */
  lemma {:induction false} NotifyAllCount(cs: seq<ClientHandle>, msg: string)
    ensures NotifyAll(cs, msg).1 == |Receivers(cs)|
    ensures NotifyAll(cs, msg).1 <= |cs|
    decreases |cs|
  {
    if |cs| == 0 {
      assert Receivers(cs) == {};
    } else {
      var init := cs[..|cs| - 1];
      var h := cs[|cs| - 1];
      NotifyAllCount(init, msg);
      assert init + [h] == cs;
      ReceiversSnoc(init, h);
    }
  }
}
