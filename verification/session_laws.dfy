/** What `handle_message` promises, branch by branch, and the invariants it keeps. */
module SessionLaws {

  import opened Basics
  import opened Text
  import opened Parser
  import opened Reply
  import opened Notifications
  import opened Database
  import opened Clients
  import opened Registry
  import opened Frames
  import opened Session
  import opened CodecLaws

  /** The session state of client `me`. */
  function StateOf(srv: ServerState, me: nat): ClientState
    requires me < |srv.clients|
  {
    srv.clients[me].state
  }

  /** The decision changes nothing but the writes: same state, database and counter, no
      frame, connection kept. */
  predicate OnlyReplies(srv: ServerState, counter: nat, me: nat, e: Effect)
    requires me < |srv.clients|
  {
    e.state == StateOf(srv, me) && e.db == srv.db && e.counter == counter && e.frame.None? && !e.quit
  }

  // ---------------------------------------------------------------------------
  // Replies, login
  // ---------------------------------------------------------------------------

  /** A message carrying a sign is a reply, which the server refuses: exactly one
      `-ERR INVALID_MESSAGE` and no change, whether the session is logged in or not. */
  lemma SignedRejected(srv: ServerState, counter: nat, me: nat, msg: Message, env: Env)
    requires me < |srv.clients| && msg.sign.Some?
    ensures var e := Respond(srv, counter, me, msg, env);
      && OnlyReplies(srv, counter, me, e)
      && e.replies == [Format(msg.id, false, "ERR", ["INVALID_MESSAGE"], Some(INVALID_TEXT))]
  {
  }

  /** LOGIN without an argument is refused with `MISSING_ARG`; a second LOGIN is refused
      with `ALREADY_LOGGED_IN` and keeps the name; otherwise the first argument becomes
      the name and the reply welcomes it.  The command is matched in any case. */
  lemma LoginOutcomes(srv: ServerState, counter: nat, me: nat, msg: Message, env: Env)
    requires me < |srv.clients| && msg.sign.None? && Upper(msg.command) == "LOGIN"
    ensures var e := Respond(srv, counter, me, msg, env);
      var st := StateOf(srv, me);
      && e.db == srv.db && e.counter == counter && e.frame.None? && !e.quit
      && (|msg.arguments| == 0 ==>
            e.state == st && e.replies == [Format(msg.id, false, "LOGIN", ["MISSING_ARG"], None)])
      && (|msg.arguments| > 0 && st.name.Some? ==>
            e.state == st && |e.replies| == 1
            && e.replies[0] == Format(msg.id, false, "LOGIN", ["ALREADY_LOGGED_IN"],
                                      Some("You are already logged in as " + st.name.value + ". Please reconnect.")))
      && (|msg.arguments| > 0 && st.name.None? ==>
            e.state == st.(name := Some(msg.arguments[0]))
            && e.replies == [Format(msg.id, true, "LOGIN", [], Some("Welcome " + msg.arguments[0]))])
  {
  }

  /** Before login every other command gets the single line
      `--ERR NO_LOGIN : Please login first.` (the command text itself is `-ERR`, after the
      `-` sign) and changes nothing. */
  lemma NoLoginRefused(srv: ServerState, counter: nat, me: nat, msg: Message, env: Env)
    requires me < |srv.clients| && msg.sign.None? && Upper(msg.command) != "LOGIN"
    requires StateOf(srv, me).name.None?
    ensures var e := Respond(srv, counter, me, msg, env);
      && OnlyReplies(srv, counter, me, e)
      && e.replies == [IdText(msg.id) + "--ERR" + " NO_LOGIN" + " : " + NO_LOGIN_TEXT + "\r\n"]
  {
    NoLoginText(msg.id);
  }

  /** The refusal before login, written out: its command text is `-ERR`, so the line
      carries two minus signs. */
  lemma NoLoginText(id: Option<U32>)
    ensures Format(id, false, "-ERR", ["NO_LOGIN"], Some(NO_LOGIN_TEXT))
         == IdText(id) + "--ERR" + " NO_LOGIN" + " : " + NO_LOGIN_TEXT + "\r\n"
  {
    assert ArgumentsText(["NO_LOGIN"]) == " NO_LOGIN";
    assert [SignChar(false)] + "-ERR" == "--ERR";
  }

  /** A client reading that refusal back with the line parser sees a `-` reply with an
      empty command and no arguments or trailing: the `NO_LOGIN` code cannot be read. */
  lemma NoLoginReadBack(id: Option<U32>)
    ensures Line(Reply.Body(Format(id, false, "-ERR", ["NO_LOGIN"], Some(NO_LOGIN_TEXT))), false).value.1
         == Message(id, Some(false), "", [], None)
  {
    UnreadableCommand(id, false, "-ERR", ["NO_LOGIN"], Some(NO_LOGIN_TEXT));
  }

  /** The login name is written only from "no name": once set, no message changes it;
      and a message that sets it is a LOGIN with an argument, which becomes the name. */
  lemma NameSetOnce(srv: ServerState, counter: nat, me: nat, msg: Message, env: Env)
    requires me < |srv.clients|
    ensures var e := Respond(srv, counter, me, msg, env);
      var st := StateOf(srv, me);
      && (st.name.Some? ==> e.state.name == st.name)
      && (st.name.None? && e.state.name.Some? ==>
            msg.sign.None? && Upper(msg.command) == "LOGIN" && |msg.arguments| > 0
            && e.state.name == Some(msg.arguments[0]))
  {
    var st := StateOf(srv, me);
    if msg.sign.None? && Upper(msg.command) != "LOGIN" && st.name.Some? {
      LoggedInKeepsName(srv, counter, st, st.name.value, Upper(msg.command), msg, env);
    }
  }

  lemma LoggedInKeepsName(srv: ServerState, counter: nat, st: ClientState, user: string, cmd: string,
                          msg: Message, env: Env)
    ensures LoggedIn(srv, counter, st, user, cmd, msg, env).state.name == st.name
  {
    var e := LoggedIn(srv, counter, st, user, cmd, msg, env);
    if cmd == "TITLE" {
      assert e.state == Title(st, msg).0;
    } else if cmd == "BODY" {
      assert e.state == Session.Body(st, msg).0;
    } else if cmd == "SEND" {
      assert e.state == st;
    } else if cmd == "CONSUME" {
      assert e.state == Consume(st, msg).0;
    }
  }

  // ---------------------------------------------------------------------------
  // The subscription invariant
  // ---------------------------------------------------------------------------

  /** A session consumes only once logged in. */
  predicate ConsumeNeedsName(st: ClientState) {
    st.consume ==> st.name.Some?
  }

  /** A new session satisfies the invariant, and every message keeps it: CONSUME, the
      only command that sets the flag, needs a login, and a name is never unset. */
  lemma ConsumeNeedsNameKept(srv: ServerState, counter: nat, me: nat, msg: Message, env: Env)
    requires me < |srv.clients| && ConsumeNeedsName(StateOf(srv, me))
    ensures ConsumeNeedsName(NewClientState())
    ensures ConsumeNeedsName(Respond(srv, counter, me, msg, env).state)
  {
    var st := StateOf(srv, me);
    if msg.sign.None? && Upper(msg.command) != "LOGIN" && st.name.Some? {
      LoggedInKeepsName(srv, counter, st, st.name.value, Upper(msg.command), msg, env);
    }
  }

  // ---------------------------------------------------------------------------
  // Building a notification
  // ---------------------------------------------------------------------------

  /** The message a logged-in session's command `cmd` is decided by. */
  predicate IsCommandFor(srv: ServerState, me: nat, msg: Message, cmd: string)
    requires me < |srv.clients|
  {
    msg.sign.None? && Upper(msg.command) == cmd && StateOf(srv, me).name.Some?
  }

  /** TITLE sets the title to the trailing, silently; without a trailing it is refused
      with `MISSING_TRAILING` and nothing changes. */
  lemma TitleRules(srv: ServerState, counter: nat, me: nat, msg: Message, env: Env)
    requires me < |srv.clients| && IsCommandFor(srv, me, msg, "TITLE")
    ensures var e := Respond(srv, counter, me, msg, env);
      var st := StateOf(srv, me);
      && e.db == srv.db && e.counter == counter && e.frame.None? && !e.quit
      && (msg.trailing.Some? ==>
            e.state == st.(details := st.details.(title := msg.trailing)) && e.replies == [])
      && (msg.trailing.None? ==>
            e.state == st && e.replies == [Format(msg.id, false, "TITLE", ["MISSING_TRAILING"], None)])
  {
  }

  /** BODY appends the trailing and a line feed to an existing body, or starts the body
      with them when there is none or the first argument is `RST` (in any case); `RST`
      without a trailing clears the body; otherwise a missing trailing is refused.  Only
      the body changes, and only the refusal is answered. */
  lemma BodyRules(srv: ServerState, counter: nat, me: nat, msg: Message, env: Env)
    requires me < |srv.clients| && IsCommandFor(srv, me, msg, "BODY")
    ensures var e := Respond(srv, counter, me, msg, env);
      var st := StateOf(srv, me);
      var body := st.details.body;
      && e.db == srv.db && e.counter == counter && e.frame.None? && !e.quit
      && (msg.trailing.Some? && body.Some? && !IsReset(msg) ==>
            e.state == st.(details := st.details.(body := Some(body.value + msg.trailing.value + "\n")))
            && e.replies == [])
      && (msg.trailing.Some? && (body.None? || IsReset(msg)) ==>
            e.state == st.(details := st.details.(body := Some(msg.trailing.value + "\n")))
            && e.replies == [])
      && (msg.trailing.None? && IsReset(msg) ==>
            e.state == st.(details := st.details.(body := None)) && e.replies == [])
      && (msg.trailing.None? && !IsReset(msg) ==>
            e.state == st && e.replies == [Format(msg.id, false, "BODY", ["MISSING_TRAILING"], None)])
  {
  }

  /** RESET forgets the notification being built, silently. */
  lemma ResetRules(srv: ServerState, counter: nat, me: nat, msg: Message, env: Env)
    requires me < |srv.clients| && IsCommandFor(srv, me, msg, "RESET")
    ensures var e := Respond(srv, counter, me, msg, env);
      && e.state == StateOf(srv, me).(details := Notifications.New())
      && e.db == srv.db && e.counter == counter && e.frame.None? && !e.quit && e.replies == []
  {
  }

  /** The body after a run of BODY lines: each line followed by a line feed, appended to
      what was there. */
  function AppendLines(st: ClientState, lines: seq<string>): ClientState
    decreases |lines|
  {
    if |lines| == 0 then st
    else AppendLines(Session.Body(st, Message(None, None, "BODY", [], Some(lines[0]))).0, lines[1..])
  }

  /** BODY lines accumulate: starting from no body, lines `l1 ... lk` give the body
      `l1\n...lk\n`, which `lines` splits back into `l1 ... lk`. */
  lemma {:induction false} BodyAccumulates(st: ClientState, lines: seq<string>)
    requires |lines| > 0 && st.details.body.None?
    ensures AppendLines(st, lines).details.body == Some(Terminate(lines, "\n"))
    ensures (forall i :: 0 <= i < |lines| ==> IsPlainLine(lines[i])) ==>
      Lines(AppendLines(st, lines).details.body.value) == lines
  {
    var first := Session.Body(st, Message(None, None, "BODY", [], Some(lines[0]))).0;
    assert first.details.body == Some(lines[0] + "\n");
    BodyAppends(first, lines[1..]);
    assert Terminate(lines, "\n") == lines[0] + "\n" + Terminate(lines[1..], "\n");
    if forall i :: 0 <= i < |lines| ==> IsPlainLine(lines[i]) {
      LinesOfTerminated(lines);
    }
  }

  lemma {:induction false} BodyAppends(st: ClientState, lines: seq<string>)
    requires st.details.body.Some?
    ensures AppendLines(st, lines).details.body == Some(st.details.body.value + Terminate(lines, "\n"))
    decreases |lines|
  {
    if |lines| == 0 {
      assert st.details.body.value + [] == st.details.body.value;
    } else {
      var next := Session.Body(st, Message(None, None, "BODY", [], Some(lines[0]))).0;
      assert next.details.body == Some(st.details.body.value + lines[0] + "\n");
      BodyAppends(next, lines[1..]);
      assert st.details.body.value + lines[0] + "\n" + Terminate(lines[1..], "\n")
          == st.details.body.value + Terminate(lines, "\n");
    }
  }

  // ---------------------------------------------------------------------------
  // Subscription, version, quit, unknown commands
  // ---------------------------------------------------------------------------

  /** CONSUME with no argument means `on`; `on`/`true` and `off`/`false`, in any case,
      set and clear the flag and echo the lower-cased argument; anything else is refused
      with `INVALID_ARG` and keeps the flag. */
  lemma ConsumeRules(srv: ServerState, counter: nat, me: nat, msg: Message, env: Env)
    requires me < |srv.clients| && IsCommandFor(srv, me, msg, "CONSUME")
    ensures var e := Respond(srv, counter, me, msg, env);
      var st := StateOf(srv, me);
      var arg := ConsumeArgument(msg);
      && e.db == srv.db && e.counter == counter && e.frame.None? && !e.quit
      && (|msg.arguments| == 0 ==> arg == "on")
      && (arg in {"on", "true"} ==>
            e.state == st.(consume := true) && e.replies == [Format(msg.id, true, "CONSUME", [arg], None)])
      && (arg in {"off", "false"} ==>
            e.state == st.(consume := false) && e.replies == [Format(msg.id, true, "CONSUME", [arg], None)])
      && (arg !in {"on", "true", "off", "false"} ==>
            e.state == st && e.replies == [Format(msg.id, false, "CONSUME", ["INVALID_ARG"], None)])
  {
  }

  /** VERSION answers with the package name and version. */
  lemma VersionRules(srv: ServerState, counter: nat, me: nat, msg: Message, env: Env)
    requires me < |srv.clients| && IsCommandFor(srv, me, msg, "VERSION")
    ensures var e := Respond(srv, counter, me, msg, env);
      && OnlyReplies(srv, counter, me, e)
      && e.replies == [Format(msg.id, true, "VERSION", [env.pkgName, env.pkgVersion], None)]
  {
  }

  /** QUIT ends the connection without a reply and without other change. */
  lemma QuitRules(srv: ServerState, counter: nat, me: nat, msg: Message, env: Env)
    requires me < |srv.clients| && IsCommandFor(srv, me, msg, "QUIT")
    ensures var e := Respond(srv, counter, me, msg, env);
      && e.quit && e.replies == [] && e.frame.None?
      && e.state == StateOf(srv, me) && e.db == srv.db && e.counter == counter
    ensures HandleMessage(srv, counter, me, msg, env).closed
  {
  }

  /** The commands a logged-in session knows. */
  predicate IsKnown(cmd: string) {
    cmd in {"TITLE", "BODY", "SEND", "RESET", "VERSION", "CONSUME", "QUIT", "HISTORY", "WHO"}
  }

  /** Any other command after login is answered `-ERR UNKNOWN_CMD` naming the upper-cased
      command, and changes nothing. */
  lemma UnknownRules(srv: ServerState, counter: nat, me: nat, msg: Message, env: Env)
    requires me < |srv.clients| && msg.sign.None? && StateOf(srv, me).name.Some?
    requires Upper(msg.command) != "LOGIN" && !IsKnown(Upper(msg.command))
    ensures var e := Respond(srv, counter, me, msg, env);
      && OnlyReplies(srv, counter, me, e)
      && e.replies == [Format(msg.id, false, "ERR", ["UNKNOWN_CMD"], Some("I do not know " + Upper(msg.command)))]
  {
  }

  // ---------------------------------------------------------------------------
  // SEND and notification ids
  // ---------------------------------------------------------------------------

  /** The id a SEND gives: without a database, the drawn id, with the counter advanced;
      with one, a successful save gives the new row id (one past the last) and sets the
      counter to it, a failed save keeps the drawn id, the database and the advanced
      counter.  A save fails when the record has no user or the statement fails. */
  lemma SendIdRules(db: Option<Db>, counter: nat, d: NotificationDetails, env: Env)
    ensures var r := SendId(db, counter, d, env);
      && (db.None? ==> r == (counter, None, counter + 1))
      && (db.Some? && d.user.Some? && env.saveOk ==>
            && r.0 == db.value.lastRowid + 1 && r.2 == r.0
            && r.1 == Some(Save(d.(id := Some(counter)), db.value, true, env.now).value)
            && |r.1.value.rows| == |db.value.rows| + 1)
      && (db.Some? && (d.user.None? || !env.saveOk) ==> r == (counter, db, counter + 1))
  {
  }

  /** SEND leaves the session as it was, frames its details with the login as user and
      the id `SendId` gives, and answers with the number of subscribers the frame
      reaches. */
  lemma SendRules(srv: ServerState, counter: nat, me: nat, msg: Message, env: Env)
    requires me < |srv.clients| && IsCommandFor(srv, me, msg, "SEND")
    ensures var e := Respond(srv, counter, me, msg, env);
      var st := StateOf(srv, me);
      var user := st.name.value;
      var d := st.details.(user := Some(user));
      var sent := SendId(srv.db, counter, d, env);
      && e.state == st && !e.quit
      && e.db == sent.1 && e.counter == sent.2
      && e.frame == Some(Frame(user, sent.0, d))
      && e.replies == [Format(msg.id, true, "SEND", [NatToString(|Receivers(srv.clients)|)], None)]
  {
    var st := StateOf(srv, me);
    var user := st.name.value;
    var d := st.details.(user := Some(user));
    NotifyAllCount(srv.clients, Frame(user, SendId(srv.db, counter, d, env).0, d));
  }

  /** With a database, ids can repeat: a successful save sets the counter to the new row
      id, so when the next save fails the id drawn for it is that same row id, and two
      notifications go out with one id. */
  lemma IdReuseAfterFailedSave(store: Db, counter: nat, d1: NotificationDetails, d2: NotificationDetails,
                               env1: Env, env2: Env)
    requires d1.user.Some? && env1.saveOk && !env2.saveOk
    ensures var first := SendId(Some(store), counter, d1, env1);
      var second := SendId(first.1, first.2, d2, env2);
      && first.0 == store.lastRowid + 1
      && second.0 == first.0
      && second.1 == first.1
  {
  }

  /** Without a database the ids of successive SENDs are the counter's successive
      values, so they never repeat. */
  lemma IdsDistinctWithoutDb(counter: nat, d1: NotificationDetails, d2: NotificationDetails,
                             env1: Env, env2: Env)
    ensures var first := SendId(None, counter, d1, env1);
      var second := SendId(first.1, first.2, d2, env2);
      second.0 == first.0 + 1
  {
  }

  // ---------------------------------------------------------------------------
  // HISTORY and WHO
  // ---------------------------------------------------------------------------

  /** HISTORY without a database answers `NO_DB`, and `DB_FAIL` when loading fails;
      otherwise it makes one write per stored row, write `k` holding the groups of rows
      0 to `k`.  Nothing changes. */
  lemma HistoryRules(srv: ServerState, counter: nat, me: nat, msg: Message, env: Env)
    requires me < |srv.clients| && IsCommandFor(srv, me, msg, "HISTORY")
    ensures var e := Respond(srv, counter, me, msg, env);
      && OnlyReplies(srv, counter, me, e)
      && (srv.db.None? ==> e.replies == [Format(msg.id, false, "HISTORY", ["NO_DB"], None)])
      && (srv.db.Some? && !env.loadOk ==> e.replies == [Format(msg.id, false, "HISTORY", ["DB_FAIL"], None)])
      && (srv.db.Some? && env.loadOk ==>
            && |e.replies| == |srv.db.value.rows|
            && e.replies == HistoryWrites(msg.id, srv.db.value.rows))
  {
  }

  /** WHO answers one line per logged-in client, in list order, naming it, flagging
      `CONSUME` when it subscribes and carrying its peer, then `+WHO END`.  Nothing
      changes. */
  lemma WhoRules(srv: ServerState, counter: nat, me: nat, msg: Message, env: Env)
    requires me < |srv.clients| && IsCommandFor(srv, me, msg, "WHO")
    ensures var e := Respond(srv, counter, me, msg, env);
      var roster := Roster(srv.clients);
      && OnlyReplies(srv, counter, me, e)
      && |e.replies| == |roster| + 1
      && (forall i :: 0 <= i < |roster| ==>
            e.replies[i] == Format(msg.id, true, "WHO",
                                   [roster[i].name] + (if roster[i].consume then ["CONSUME"] else []),
                                   Some(roster[i].peer)))
      && e.replies[|roster|] == Format(msg.id, true, "WHO", ["END"], None)
  {
  }

  /** The asking session is always in its own WHO answer. */
  lemma WhoIncludesSelf(srv: ServerState, me: nat)
    requires me < |srv.clients| && StateOf(srv, me).name.Some?
    ensures var h := srv.clients[me];
      WhoEntry(h.state.name.value, h.peer, h.state.consume) in Roster(srv.clients)
  {
    var h := srv.clients[me];
    RosterMembers(srv.clients, WhoEntry(h.state.name.value, h.peer, h.state.consume));
  }

  // ---------------------------------------------------------------------------
  // Applying a decision to the registry
  // ---------------------------------------------------------------------------

  /** What a client's queue gains when a frame is broadcast: the frame, if the client
      receives it. */
  function Gained(h: ClientHandle, frame: Option<string>): seq<string> {
    if frame.Some? && Receives(h) then [frame.value] else []
  }

  /** `Deliver` changes client `me`'s state to the given one and nothing else of any
      client but the queues: every client that receives the frame gains it, and client
      `me`, after that, gains its replies when its channel is open. */
  lemma DeliverEffects(cs: seq<ClientHandle>, me: nat, state: ClientState, frame: Option<string>,
                       replies: seq<string>)
    requires me < |cs|
    ensures var cs' := Deliver(cs, me, state, frame, replies);
      && (forall i :: 0 <= i < |cs| && i != me ==>
            && cs'[i].peer == cs[i].peer && cs'[i].state == cs[i].state && cs'[i].open == cs[i].open
            && cs'[i].outbox == cs[i].outbox + Gained(cs[i], frame))
      && cs'[me].peer == cs[me].peer && cs'[me].state == state && cs'[me].open == cs[me].open
      && cs'[me].outbox == cs[me].outbox + Gained(cs[me].(state := state), frame)
                           + (if cs[me].open then replies else [])
  {
    var updated := cs[me := cs[me].(state := state)];
    if frame.Some? {
      NotifyAllWrites(updated, frame.value);
    }
  }

  /** `HandleMessage` applies the decision: the database, counter, replies and frames are
      the decided ones, and the client list is the decision delivered. */
  lemma HandleMessageEffects(srv: ServerState, counter: nat, me: nat, msg: Message, env: Env)
    requires me < |srv.clients|
    ensures var e := Respond(srv, counter, me, msg, env);
      var o := HandleMessage(srv, counter, me, msg, env);
      && o.server.db == e.db && o.counter == e.counter && o.replies == e.replies
      && o.frames == (if e.frame.Some? then [e.frame.value] else [])
      && o.server.clients == Deliver(srv.clients, me, e.state, e.frame, e.replies)
      && o.closed == (e.quit || (!srv.clients[me].open && |e.replies| > 0))
  {
  }

  /** Every session in the registry keeps the subscription invariant. */
  predicate AllConsumeNeedName(srv: ServerState) {
    forall i :: 0 <= i < |srv.clients| ==> ConsumeNeedsName(srv.clients[i].state)
  }

  /** Handling a message keeps the invariant for the whole registry. */
  lemma HandleKeepsInvariant(srv: ServerState, counter: nat, me: nat, msg: Message, env: Env)
    requires me < |srv.clients| && AllConsumeNeedName(srv)
    ensures AllConsumeNeedName(HandleMessage(srv, counter, me, msg, env).server)
  {
    var e := Respond(srv, counter, me, msg, env);
    ConsumeNeedsNameKept(srv, counter, me, msg, env);
    DeliverEffects(srv.clients, me, e.state, e.frame, e.replies);
  }

  /** The reader loop keeps the invariant, whatever the lines. */
  lemma {:induction false} FeedKeepsInvariant(srv: ServerState, counter: nat, me: nat, lines: seq<string>,
                                              envs: seq<Env>)
    requires me < |srv.clients| && AllConsumeNeedName(srv) && |envs| == |lines|
    ensures AllConsumeNeedName(Feed(srv, counter, me, lines, envs).server)
    decreases |lines|
  {
    if |lines| > 0 {
      var msg := Line(lines[0], false).value.1;
      var o := HandleMessage(srv, counter, me, msg, envs[0]);
      HandleKeepsInvariant(srv, counter, me, msg, envs[0]);
      if !o.closed {
        FeedKeepsInvariant(o.server, o.counter, me, lines[1..], envs[1..]);
      }
    }
  }
}
