/** One session's handling of a message (`ClientHandle::handle_message` in
    src/server/client.rs) as a pure step over the registry.  The step is split in two:
    `Respond` decides the session's new state, the database and counter after the
    message, the frame to broadcast and the session's own writes; `HandleMessage` then
    applies that to the registry, in the source's order: state update, broadcast, own
    writes. */
module Session {

  import opened Basics
  import opened Text
  import opened Parser
  import opened Reply
  import opened Notifications
  import opened Database
  import opened Clients
  import opened Registry
  import opened Frames

  /** What the session cannot compute itself while it handles one message: whether the
      database statements succeed, the timestamp the database renders, and the package
      name and version compiled in.  Each message gets its own. */
  datatype Env = Env(saveOk: bool, loadOk: bool, now: string, pkgName: string, pkgVersion: string)

  /** The decision for one message. `replies` are the session's writes to itself, in order. */
  datatype Effect = Effect(
    state: ClientState,
    db: Option<Db>,
    counter: nat,
    frame: Option<string>,
    replies: seq<string>,
    quit: bool)

  /** The decision for a message that only changes the session state and writes replies. */
  function Local(state: ClientState, srv: ServerState, counter: nat, replies: seq<string>): Effect {
    Effect(state, srv.db, counter, None, replies, false)
  }

  const INVALID_TEXT: string := "You can't sent a reply message to a server."
  const NO_LOGIN_TEXT: string := "Please login first."

  // ---------------------------------------------------------------------------
  // Branches
  // ---------------------------------------------------------------------------

  /** LOGIN: the first argument becomes the name, once. */
  function Login(st: ClientState, msg: Message): (ClientState, seq<string>) {
    if |msg.arguments| == 0 then
      (st, [Format(msg.id, false, "LOGIN", ["MISSING_ARG"], None)])
    else
      match st.name
      case Some(u) =>
        (st, [Format(msg.id, false, "LOGIN", ["ALREADY_LOGGED_IN"],
                     Some("You are already logged in as " + u + ". Please reconnect."))])
      case None =>
        var user := msg.arguments[0];
        (st.(name := Some(user)), [Format(msg.id, true, "LOGIN", [], Some("Welcome " + user))])
  }

  /** TITLE: the trailing becomes the title. */
  function Title(st: ClientState, msg: Message): (ClientState, seq<string>) {
    match msg.trailing
    case Some(t) => (st.(details := st.details.(title := Some(t))), [])
    case None => (st, [Format(msg.id, false, "TITLE", ["MISSING_TRAILING"], None)])
  }

  /** BODY's `RST` flag: the first argument, in any case, is `RST`. */
  predicate IsReset(msg: Message) {
    |msg.arguments| > 0 && Upper(msg.arguments[0]) == "RST"
  }

  /** BODY: the trailing and a line feed are appended to the body, or replace it when
      there is none yet or on `RST`; `RST` without a trailing clears the body. */
  function Body(st: ClientState, msg: Message): (ClientState, seq<string>) {
    var reset := IsReset(msg);
    var d := st.details;
    match msg.trailing
    case Some(line) =>
      if d.body.Some? && !reset then (st.(details := d.(body := Some(d.body.value + line + "\n"))), [])
      else (st.(details := d.(body := Some(line + "\n"))), [])
    case None =>
      if reset then (st.(details := d.(body := None)), [])
      else (st, [Format(msg.id, false, "BODY", ["MISSING_TRAILING"], None)])
  }

  /** CONSUME's argument: the first one lower-cased, `on` when there is none. */
  function ConsumeArgument(msg: Message): string {
    if |msg.arguments| == 0 then "on" else Lower(msg.arguments[0])
  }

  /** CONSUME: `on`/`true` subscribe, `off`/`false` unsubscribe; both echo the argument. */
  function Consume(st: ClientState, msg: Message): (ClientState, seq<string>) {
    var arg := ConsumeArgument(msg);
    if arg == "on" || arg == "true" then
      (st.(consume := true), [Format(msg.id, true, "CONSUME", [arg], None)])
    else if arg == "off" || arg == "false" then
      (st.(consume := false), [Format(msg.id, true, "CONSUME", [arg], None)])
    else
      (st, [Format(msg.id, false, "CONSUME", ["INVALID_ARG"], None)])
  }

  /** The id a SEND gives its notification, with the database and counter after it: an
      id is drawn; with a database, a successful save replaces it by the new row id and
      stores that in the counter; a failed save keeps the drawn id. */
  function SendId(db: Option<Db>, counter: nat, d: NotificationDetails, env: Env): (r: (nat, Option<Db>, nat)) {
    var drawn := NextId(counter);
    match db
    case None => (drawn.0, None, drawn.1)
    case Some(store) =>
      match Save(d.(id := Some(drawn.0)), store, env.saveOk, env.now)
      case Ok(saved) =>
        var rowid := LastInsertRowid(saved);
        (rowid, Some(saved), SetId(drawn.1, rowid))
      case Err(_) => (drawn.0, db, drawn.1)
  }

  /** SEND: the session's details, with the user filled in, are saved, framed and
      broadcast; the reply carries the number of subscribers reached.  The session's
      own details are left as they were. */
  function Send(srv: ServerState, counter: nat, st: ClientState, user: string, msg: Message, env: Env): Effect {
    var d := st.details.(user := Some(user));
    var sent := SendId(srv.db, counter, d, env);
    var frame := Frame(user, sent.0, d);
    var n := NotifyAll(srv.clients, frame).1;
    Effect(st, sent.1, sent.2, Some(frame), [Format(msg.id, true, "SEND", [NatToString(n)], None)], false)
  }

  /** HISTORY: without a database or when loading fails, one error reply; otherwise the
      cumulative writes, one per stored notification. */
  function History(db: Option<Db>, msg: Message, env: Env): seq<string> {
    match db
    case None => [Format(msg.id, false, "HISTORY", ["NO_DB"], None)]
    case Some(store) =>
      match LoadAll(store, env.loadOk)
      case None => [Format(msg.id, false, "HISTORY", ["DB_FAIL"], None)]
      case Some(_) => HistoryWrites(msg.id, store.rows)
  }

  /** One WHO line for a roster entry. */
  function WhoLine(msgId: Option<U32>, e: WhoEntry): string {
    Format(msgId, true, "WHO", [e.name] + (if e.consume then ["CONSUME"] else []), Some(e.peer))
  }

  /** WHO: one line per logged-in client in list order, then `+WHO END`. */
  function WhoReplies(cs: seq<ClientHandle>, msgId: Option<U32>): (r: seq<string>) {
    var roster := Roster(cs);
    seq(|roster|, i requires 0 <= i < |roster| => WhoLine(msgId, roster[i]))
      + [Format(msgId, true, "WHO", ["END"], None)]
  }

  /** The commands a logged-in session understands. */
  function LoggedIn(srv: ServerState, counter: nat, st: ClientState, user: string, cmd: string,
                    msg: Message, env: Env): Effect
  {
    if cmd == "TITLE" then var r := Title(st, msg); Local(r.0, srv, counter, r.1)
    else if cmd == "BODY" then var r := Body(st, msg); Local(r.0, srv, counter, r.1)
    else if cmd == "SEND" then Send(srv, counter, st, user, msg, env)
    else if cmd == "RESET" then Local(st.(details := Notifications.New()), srv, counter, [])
    else if cmd == "VERSION" then
      Local(st, srv, counter, [Format(msg.id, true, "VERSION", [env.pkgName, env.pkgVersion], None)])
    else if cmd == "CONSUME" then var r := Consume(st, msg); Local(r.0, srv, counter, r.1)
    else if cmd == "QUIT" then Effect(st, srv.db, counter, None, [], true)
    else if cmd == "HISTORY" then Local(st, srv, counter, History(srv.db, msg, env))
    else if cmd == "WHO" then Local(st, srv, counter, WhoReplies(srv.clients, msg.id))
    else Local(st, srv, counter, [Format(msg.id, false, "ERR", ["UNKNOWN_CMD"], Some("I do not know " + cmd))])
  }

  /** The decision for message `msg` from client `me`: replies are rejected, LOGIN is
      handled first, every other command needs a login. */
  function Respond(srv: ServerState, counter: nat, me: nat, msg: Message, env: Env): Effect
    requires me < |srv.clients|
  {
    var st := srv.clients[me].state;
    if msg.sign.Some? then
      Local(st, srv, counter, [Format(msg.id, false, "ERR", ["INVALID_MESSAGE"], Some(INVALID_TEXT))])
    else
      var cmd := Upper(msg.command);
      if cmd == "LOGIN" then var r := Login(st, msg); Local(r.0, srv, counter, r.1)
      else if st.name.None? then
        Local(st, srv, counter, [Format(msg.id, false, "-ERR", ["NO_LOGIN"], Some(NO_LOGIN_TEXT))])
      else LoggedIn(srv, counter, st, st.name.value, cmd, msg, env)
  }

  // ---------------------------------------------------------------------------
  // Applying a decision to the registry
  // ---------------------------------------------------------------------------

  /** The registry and counter after a message, the session's writes, the frames broadcast,
      and whether the connection ends: on QUIT, or when a write to the session fails
      (its channel is closed), which ends the reader with an error. */
  datatype Outcome = Outcome(
    server: ServerState,
    counter: nat,
    replies: seq<string>,
    frames: seq<string>,
    closed: bool)

  function HandleMessage(srv: ServerState, counter: nat, me: nat, msg: Message, env: Env): (o: Outcome)
    requires me < |srv.clients|
    ensures |o.server.clients| == |srv.clients|
  {
    var e := Respond(srv, counter, me, msg, env);
    var frames := if e.frame.Some? then [e.frame.value] else [];
    Outcome(ServerState(Deliver(srv.clients, me, e.state, e.frame, e.replies), e.db), e.counter,
            e.replies, frames, e.quit || (!srv.clients[me].open && |e.replies| > 0))
  }

  /** The client list after client `me`'s decision: its state replaced, the frame (if
      any) broadcast to the consuming clients, then its replies written to it. */
  function Deliver(cs: seq<ClientHandle>, me: nat, state: ClientState, frame: Option<string>,
                   replies: seq<string>): (r: seq<ClientHandle>)
    requires me < |cs|
    ensures |r| == |cs|
  {
    var updated := cs[me := cs[me].(state := state)];
    var broadcast := if frame.Some? then NotifyAll(updated, frame.value).0 else updated;
    broadcast[me := WriteEach(broadcast[me], replies)]
  }

  /** The reader loop: every line of the input, as `lines` splits it, is parsed
      unterminated (which never fails) and handled, until the connection ends.  Line `k`
      is handled under `envs[k]`, so each statement succeeds or fails on its own. */
  function Feed(srv: ServerState, counter: nat, me: nat, lines: seq<string>, envs: seq<Env>): (o: Outcome)
    requires me < |srv.clients| && |envs| == |lines|
    ensures |o.server.clients| == |srv.clients|
    decreases |lines|
  {
    if |lines| == 0 then Outcome(srv, counter, [], [], false)
    else
      var msg := Line(lines[0], false).value.1;
      var o := HandleMessage(srv, counter, me, msg, envs[0]);
      if o.closed then o
      else
        var rest := Feed(o.server, o.counter, me, lines[1..], envs[1..]);
        Outcome(rest.server, rest.counter, o.replies + rest.replies, o.frames + rest.frames, rest.closed)
  }
}
