/** Whole conversations between the clients and a session: the handshake both client
    daemons write (src/bin/notificationd/client.rs and src/client.rs), fed to the
    server's reader loop, and the current client's reading of the welcome; and the
    script examples/simple.rb, which logs in, sets a title and sends. */
module Scenarios {

  import opened Basics
  import opened Text
  import opened Parser
  import opened Reply
  import opened Notifications
  import opened Clients
  import opened Registry
  import opened Session
  import opened SessionLaws
  import opened CodecLaws
  import opened ParserCases
  import opened Forwarder
  import opened FrameReassembly

  // ---------------------------------------------------------------------------
  // Reading the lines
  // ---------------------------------------------------------------------------

  /** The handshake splits into the login line and the subscription line. */
  lemma HandshakeLines(user: string, host: string)
    requires IsArgument(user + "@" + host)
    ensures Lines(Handshake(user, host)) == ["login " + user + "@" + host, "consume"]
  {
    var login := "login " + user + "@" + host;
    var ls := [login, "consume"];
    assert Terminate(ls[1..], "\r\n") == "consume" + "\r\n" + Terminate([], "\r\n");
    assert Handshake(user, host) == login + ("\r\n" + "consume\r\n");
    assert Terminate(ls, "\r\n") == Handshake(user, host);
    assert '\n' !in "login ";
    assert login[..6] == "login " && login[6..] == user + "@" + host;
    LinesOfCrlf(ls);
  }

  /** ` <a>` and nothing after it: one argument. */
  lemma OneArgument(a: string)
    requires IsArgument(a)
    ensures Tail(" " + a) == ([a], None, [])
  {
    ArgumentStep(" " + a, a, "");
    assert Arguments("") == ([], "");
    assert [a] + [] == [a];
    assert Trailing("") == (None, "");
  }

  /** A command followed by one argument. */
  lemma CommandArgumentRead(command: string, a: string)
    requires |command| > 0 && IsCommand(command) && !IsDigit(command[0])
    requires IsArgument(a)
    ensures Read(command + (" " + a)) == Message(None, None, command, [a], None)
  {
    BareCommandLine(command, " " + a);
    OneArgument(a);
  }

  /** A command alone. */
  lemma CommandRead(command: string)
    requires |command| > 0 && IsCommand(command) && !IsDigit(command[0])
    ensures Read(command) == Message(None, None, command, [], None)
  {
    BareCommandLine(command, "");
    assert command + "" == command;
    NoArguments("");
    assert Trailing("") == (None, "");
  }

  // ---------------------------------------------------------------------------
  // The handshake at the server
  // ---------------------------------------------------------------------------

  /** A session that has just connected: not logged in, not consuming, nothing built. */
  predicate Fresh(srv: ServerState, me: nat) {
    me < |srv.clients| && srv.clients[me].state == NewClientState() && srv.clients[me].open
  }

  function Welcome(login: string): string {
    Format(None, true, "LOGIN", [], Some("Welcome " + login))
  }

  function ConsumeOn(): string {
    Format(None, true, "CONSUME", ["on"], None)
  }

  /** A decision without a frame replaces the session's state and queues its replies. */
  lemma DeliverLocal(cs: seq<ClientHandle>, me: nat, state: ClientState, replies: seq<string>)
    requires me < |cs|
    ensures Deliver(cs, me, state, None, replies)
         == cs[me := cs[me].(state := state, outbox := cs[me].outbox + (if cs[me].open then replies else []))]
  {
    var updated := cs[me := cs[me].(state := state)];
    assert updated[me] == cs[me].(state := state);
    assert cs[me].outbox + [] == cs[me].outbox;
  }

  /** The reader loop over one or more lines, when the first does not end the
      connection. */
  lemma FeedOpen(srv: ServerState, counter: nat, me: nat, lines: seq<string>, envs: seq<Env>)
    requires me < |srv.clients| && |lines| > 0 && |envs| == |lines|
    requires !HandleMessage(srv, counter, me, Read(lines[0]), envs[0]).closed
    ensures var o := HandleMessage(srv, counter, me, Read(lines[0]), envs[0]);
      var rest := Feed(o.server, o.counter, me, lines[1..], envs[1..]);
      Feed(srv, counter, me, lines, envs)
        == Outcome(rest.server, rest.counter, o.replies + rest.replies, o.frames + rest.frames, rest.closed)
  {
  }

  lemma FeedLast(srv: ServerState, counter: nat, me: nat, lines: seq<string>, envs: seq<Env>)
    requires me < |srv.clients| && |lines| == 1 && |envs| == 1
    requires !HandleMessage(srv, counter, me, Read(lines[0]), envs[0]).closed
    ensures Feed(srv, counter, me, lines, envs) == HandleMessage(srv, counter, me, Read(lines[0]), envs[0])
  {
    var o := HandleMessage(srv, counter, me, Read(lines[0]), envs[0]);
    FeedOpen(srv, counter, me, lines, envs);
    assert lines[1..] == [] && envs[1..] == [];
    assert o.replies + [] == o.replies && o.frames + [] == o.frames;
  }

  /** The reader loop over two lines neither of which ends the connection. */
  lemma FeedTwo(srv: ServerState, counter: nat, me: nat, lines: seq<string>, envs: seq<Env>,
                 o1: Outcome, o2: Outcome)
    requires me < |srv.clients| && |lines| == 2 && |envs| == 2
    requires o1 == HandleMessage(srv, counter, me, Read(lines[0]), envs[0]) && !o1.closed
    requires o2 == HandleMessage(o1.server, o1.counter, me, Read(lines[1]), envs[1]) && !o2.closed
    ensures Feed(srv, counter, me, lines, envs)
         == Outcome(o2.server, o2.counter, o1.replies + o2.replies, o1.frames + o2.frames, false)
  {
    FeedOpen(srv, counter, me, lines, envs);
    FeedLast(o1.server, o1.counter, me, lines[1..], envs[1..]);
  }

  /** The reader loop over three lines none of which ends the connection. */
  lemma FeedThree(srv: ServerState, counter: nat, me: nat, lines: seq<string>, envs: seq<Env>,
                  o1: Outcome, o2: Outcome, o3: Outcome)
    requires me < |srv.clients| && |lines| == 3 && |envs| == 3
    requires o1 == HandleMessage(srv, counter, me, Read(lines[0]), envs[0]) && !o1.closed
    requires o2 == HandleMessage(o1.server, o1.counter, me, Read(lines[1]), envs[1]) && !o2.closed
    requires o3 == HandleMessage(o2.server, o2.counter, me, Read(lines[2]), envs[2]) && !o3.closed
    ensures Feed(srv, counter, me, lines, envs)
         == Outcome(o3.server, o3.counter, o1.replies + (o2.replies + o3.replies),
                    o1.frames + (o2.frames + o3.frames), false)
  {
    FeedOpen(srv, counter, me, lines, envs);
    FeedTwo(o1.server, o1.counter, me, lines[1..], envs[1..], o2, o3);
  }

  /** The handshake's lower-case `login` names LOGIN; a lemma of its own, like
      `UpperLoginKept`, keeps the evaluation on the literal out of the larger proof. */
  lemma UpperLogin()
    ensures Upper("login") == "LOGIN"
  {
  }

  /** `login <name>` on a fresh session logs it in and welcomes it. */
  lemma LoginStep(srv: ServerState, counter: nat, me: nat, command: string, login: string, env: Env)
    requires Fresh(srv, me) && IsArgument(login) && Upper(command) == "LOGIN"
    ensures var o := HandleMessage(srv, counter, me, Message(None, None, command, [login], None), env);
      && o.server.db == srv.db && o.counter == counter
      && o.replies == [Welcome(login)] && o.frames == [] && !o.closed
      && o.server.clients == srv.clients[me := srv.clients[me].(
           state := NewClientState().(name := Some(login)),
           outbox := srv.clients[me].outbox + [Welcome(login)])]
  {
    var msg := Message(None, None, command, [login], None);
    LoginOutcomes(srv, counter, me, msg, env);
    HandleMessageEffects(srv, counter, me, msg, env);
    DeliverLocal(srv.clients, me, NewClientState().(name := Some(login)), [Welcome(login)]);
  }

  /** `consume` on a logged-in session subscribes it and echoes `on`. */
  lemma ConsumeStep(srv: ServerState, counter: nat, me: nat, env: Env)
    requires me < |srv.clients| && srv.clients[me].state.name.Some? && srv.clients[me].open
    ensures var o := HandleMessage(srv, counter, me, Message(None, None, "consume", [], None), env);
      && o.server.db == srv.db && o.counter == counter
      && o.replies == [ConsumeOn()] && o.frames == [] && !o.closed
      && o.server.clients == srv.clients[me := srv.clients[me].(
           state := srv.clients[me].state.(consume := true),
           outbox := srv.clients[me].outbox + [ConsumeOn()])]
  {
    var msg := Message(None, None, "consume", [], None);
    assert Upper("consume") == "CONSUME";
    assert ConsumeArgument(msg) == "on";
    ConsumeRules(srv, counter, me, msg, env);
    HandleMessageEffects(srv, counter, me, msg, env);
    DeliverLocal(srv.clients, me, srv.clients[me].state.(consume := true), [ConsumeOn()]);
  }

  /** A login line and then a subscription line, on a fresh session. */
  lemma LoginThenConsume(srv: ServerState, counter: nat, me: nat, login: string, lines: seq<string>,
                         envs: seq<Env>)
    requires Fresh(srv, me) && IsArgument(login) && |lines| == 2 && |envs| == 2
    requires Read(lines[0]) == Message(None, None, "login", [login], None)
    requires Read(lines[1]) == Message(None, None, "consume", [], None)
    ensures var o := Feed(srv, counter, me, lines, envs);
      && o.server.db == srv.db && o.counter == counter
      && o.replies == [Welcome(login), ConsumeOn()] && o.frames == [] && !o.closed
      && o.server.clients == srv.clients[me := srv.clients[me].(
           state := ClientState(Some(login), Notifications.New(), true),
           outbox := srv.clients[me].outbox + [Welcome(login), ConsumeOn()])]
  {
    var o1 := HandleMessage(srv, counter, me, Message(None, None, "login", [login], None), envs[0]);
    var o2 := HandleMessage(o1.server, o1.counter, me, Message(None, None, "consume", [], None), envs[1]);
    HandshakeSteps(srv, counter, me, login, envs[0], envs[1], o1, o2);
    FeedTwo(srv, counter, me, lines, envs, o1, o2);
  }

  /** The two handshake messages, one after the other, on a fresh session. */
  lemma HandshakeSteps(srv: ServerState, counter: nat, me: nat, login: string, env1: Env, env2: Env,
                       o1: Outcome, o2: Outcome)
    requires Fresh(srv, me) && IsArgument(login)
    requires o1 == HandleMessage(srv, counter, me, Message(None, None, "login", [login], None), env1)
    requires o2 == HandleMessage(o1.server, o1.counter, me, Message(None, None, "consume", [], None), env2)
    ensures !o1.closed && !o2.closed && o2.server.db == srv.db && o2.counter == counter
    ensures o1.replies + o2.replies == [Welcome(login), ConsumeOn()] && o1.frames + o2.frames == []
    ensures o2.server.clients == srv.clients[me := srv.clients[me].(
              state := ClientState(Some(login), Notifications.New(), true),
              outbox := srv.clients[me].outbox + [Welcome(login), ConsumeOn()])]
  {
    var h := srv.clients[me];
    UpperLogin();
    LoginStep(srv, counter, me, "login", login, env1);
    var h1 := h.(state := NewClientState().(name := Some(login)), outbox := h.outbox + [Welcome(login)]);
    assert o1.server.clients == srv.clients[me := h1];
    ConsumeStep(o1.server, counter, me, env2);
    var h2 := h1.(state := h1.state.(consume := true), outbox := h1.outbox + [ConsumeOn()]);
    assert o2.server.clients == srv.clients[me := h1][me := h2];
    UpdateTwice(srv.clients, me, h1, h2);
    assert h.outbox + [Welcome(login)] + [ConsumeOn()] == h.outbox + [Welcome(login), ConsumeOn()];
  }

  lemma UpdateTwice<T>(s: seq<T>, i: nat, a: T, b: T)
    requires i < |s|
    ensures s[i := a][i := b] == s[i := b]
  {
  }

  /** The handshake on a fresh session: it is logged in as `user@host` and subscribed,
      it is welcomed and its subscription echoed, and nothing else changes. */
  lemma HandshakeSession(srv: ServerState, counter: nat, me: nat, user: string, host: string, envs: seq<Env>)
    requires Fresh(srv, me) && IsArgument(user + "@" + host) && |envs| == 2
    ensures |Lines(Handshake(user, host))| == 2
    ensures var login := user + "@" + host;
      var o := Feed(srv, counter, me, Lines(Handshake(user, host)), envs);
      && o.server.db == srv.db && o.counter == counter
      && o.replies == [Welcome(login), ConsumeOn()] && o.frames == [] && !o.closed
      && o.server.clients == srv.clients[me := srv.clients[me].(
           state := ClientState(Some(login), Notifications.New(), true),
           outbox := srv.clients[me].outbox + [Welcome(login), ConsumeOn()])]
  {
    HandshakeReads(user, host);
    LoginThenConsume(srv, counter, me, user + "@" + host, Lines(Handshake(user, host)), envs);
  }

  /** The handshake's lines, as the server reads them. */
  lemma HandshakeReads(user: string, host: string)
    requires IsArgument(user + "@" + host)
    ensures var lines := Lines(Handshake(user, host));
      && |lines| == 2
      && Read(lines[0]) == Message(None, None, "login", [user + "@" + host], None)
      && Read(lines[1]) == Message(None, None, "consume", [], None)
  {
    HandshakeLines(user, host);
    LoginLineRead(user, host);
    ConsumeLineRead();
  }

  lemma ConsumeLineRead()
    ensures Read("consume") == Message(None, None, "consume", [], None)
  {
    CommandRead("consume");
  }

  lemma LoginLineRead(user: string, host: string)
    requires IsArgument(user + "@" + host)
    ensures Read("login " + user + "@" + host) == Message(None, None, "login", [user + "@" + host], None)
  {
    var login := user + "@" + host;
    assert "login " + user + "@" + host == "login" + (" " + login);
    CommandArgumentRead("login", login);
  }

  /** The welcome, as the current client reads it: a `+` LOGIN reply. */
  lemma WelcomeRead(login: string)
    ensures Read(Reply.Body(Welcome(login))) == Message(None, Some(true), "LOGIN", [], Some("Welcome " + login))
  {
    assert "Welcome " + login == "W" + ("elcome " + login);
    FormatThenParse(None, true, "LOGIN", [], Some("Welcome " + login));
  }

  /** The current client takes the welcome as its login confirmation: it reads a `+`
      LOGIN reply, marks the login confirmed and, when booted by the service manager,
      reports readiness; the notification being reassembled is untouched. */
  lemma WelcomeConfirms(login: string, details: Option<NotificationDetails>, booted: bool)
    ensures Step(Reader(details, false, booted), Read(Reply.Body(Welcome(login))))
         == Ok((Reader(details, true, booted), if booted then [Ready] else []))
  {
    WelcomeRead(login);
    LoginReplyConfirms(Reader(details, false, booted), Message(None, Some(true), "LOGIN", [], Some("Welcome " + login)));
  }

  lemma LoginReplyConfirms(r: Reader, msg: Message)
    requires !r.confirmed && msg.sign == Some(true) && msg.command == "LOGIN"
    ensures Step(r, msg) == Ok((r.(confirmed := true), if r.booted then [Ready] else []))
  {
    UpperKeeps("LOGIN");
  }

  // ---------------------------------------------------------------------------
  // examples/simple.rb
  // ---------------------------------------------------------------------------

  const RUBY_TITLE: string := "Ruby notificationd client test"

  /** The lines the script writes (`puts` ends each with a line feed). */
  function RubyLines(login: string): seq<string> {
    ["LOGIN " + login, "TITLE: " + RUBY_TITLE, "SEND"]
  }

  /** The notification the script sends. */
  function RubyNotification(login: string): NotificationDetails {
    Notifications.New().(title := Some(RUBY_TITLE), user := Some(login))
  }

  /** The script's lines, as the server reads them. */
  lemma RubyReads(login: string)
    requires IsArgument(login)
    ensures var lines := RubyLines(login);
      && Read(lines[0]) == Message(None, None, "LOGIN", [login], None)
      && Read(lines[1]) == Message(None, None, "TITLE", [], Some(RUBY_TITLE))
      && Read(lines[2]) == Message(None, None, "SEND", [], None)
  {
    RubyLoginRead(login);
    RubyTitleRead();
    SendLineRead();
  }

  lemma RubyLoginRead(login: string)
    requires IsArgument(login)
    ensures Read("LOGIN " + login) == Message(None, None, "LOGIN", [login], None)
  {
    assert "LOGIN " + login == "LOGIN" + (" " + login);
    CommandArgumentRead("LOGIN", login);
  }

  lemma RubyTitleRead()
    ensures Read("TITLE: " + RUBY_TITLE) == Message(None, None, "TITLE", [], Some(RUBY_TITLE))
  {
    assert RUBY_TITLE[0] == 'R';
    TitleLineRead(RUBY_TITLE);
    assert Frames.TitleText(RUBY_TITLE) == "TITLE: " + RUBY_TITLE;
  }

  lemma SendLineRead()
    ensures Read("SEND") == Message(None, None, "SEND", [], None)
  {
    CommandRead("SEND");
  }

  lemma TitleStepRuby(srv: ServerState, counter: nat, me: nat, env: Env)
    requires me < |srv.clients| && srv.clients[me].state.name.Some? && srv.clients[me].open
    ensures var st := srv.clients[me].state;
      var o := HandleMessage(srv, counter, me, Message(None, None, "TITLE", [], Some(RUBY_TITLE)), env);
      && o.server.db == srv.db && o.counter == counter && o.replies == [] && o.frames == [] && !o.closed
      && o.server.clients == srv.clients[me := srv.clients[me].(
           state := st.(details := st.details.(title := Some(RUBY_TITLE))))]
  {
    var msg := Message(None, None, "TITLE", [], Some(RUBY_TITLE));
    var st := srv.clients[me].state;
    UpperKeeps("TITLE");
    TitleRules(srv, counter, me, msg, env);
    HandleMessageEffects(srv, counter, me, msg, env);
    DeliverLocal(srv.clients, me, st.(details := st.details.(title := Some(RUBY_TITLE))), []);
    assert srv.clients[me].outbox + [] == srv.clients[me].outbox;
  }

  /** A `+` reply to SEND starts with `+SEND`. */
  lemma SendReplyPrefix(k: string)
    ensures var r := Format(None, true, "SEND", [k], None);
      |r| >= 5 && r[..5] == "+SEND"
  {
    var signed := Signed(true, "SEND", [k], None);
    assert signed == ['+'] + "SEND" + After([k], None);
    assert Format(None, true, "SEND", [k], None) == signed + "\r\n";
  }

  /** SEND after the script's title: a `+SEND` reply and the frame of the script's
      notification. */
  lemma SendStepRuby(srv: ServerState, counter: nat, me: nat, login: string, env: Env)
    requires me < |srv.clients| && srv.clients[me].open
    requires srv.clients[me].state == ClientState(Some(login), Notifications.New().(title := Some(RUBY_TITLE)), false)
    ensures var o := HandleMessage(srv, counter, me, Message(None, None, "SEND", [], None), env);
      && |o.replies| == 1 && |o.replies[0]| >= 5 && o.replies[0][..5] == "+SEND" && !o.closed
      && o.frames == [Frames.Frame(login, SendId(srv.db, counter, RubyNotification(login), env).0,
                                   RubyNotification(login))]
  {
    var msg := Message(None, None, "SEND", [], None);
    UpperKeeps("SEND");
    SendRules(srv, counter, me, msg, env);
    HandleMessageEffects(srv, counter, me, msg, env);
    SendReplyPrefix(NatToString(|Receivers(srv.clients)|));
  }

  /** The script's session: the welcome is a `+` reply, then SEND is answered with a
      `+SEND` reply, and the frame broadcast carries the script's title.  So the script
      never sees a `-` reply and exits at the `+SEND`. */
  lemma RubyScript(srv: ServerState, counter: nat, me: nat, login: string, envs: seq<Env>)
    requires Fresh(srv, me) && IsArgument(login) && |envs| == 3
    ensures var o := Feed(srv, counter, me, RubyLines(login), envs);
      && |o.replies| == 2 && !o.closed
      && o.replies[0] == Welcome(login) && o.replies[0][0] == '+'
      && |o.replies[1]| >= 5 && o.replies[1][..5] == "+SEND"
      && o.frames == [Frames.Frame(login, SendId(srv.db, counter, RubyNotification(login), envs[2]).0,
                                   RubyNotification(login))]
  {
    var o1 := HandleMessage(srv, counter, me, Message(None, None, "LOGIN", [login], None), envs[0]);
    var o2 := HandleMessage(o1.server, o1.counter, me, Message(None, None, "TITLE", [], Some(RUBY_TITLE)), envs[1]);
    var o3 := HandleMessage(o2.server, o2.counter, me, Message(None, None, "SEND", [], None), envs[2]);
    RubyReads(login);
    RubySteps(srv, counter, me, login, envs[0], envs[1], envs[2], o1, o2, o3);
    FeedThree(srv, counter, me, RubyLines(login), envs, o1, o2, o3);
  }

  /** `LOGIN` is already upper-case.  A lemma of its own keeps the evaluation of `Upper`
      on the literal out of the larger proof that uses it. */
  lemma UpperLoginKept()
    ensures Upper("LOGIN") == "LOGIN"
  {
    UpperKeeps("LOGIN");
  }

  /** The script's three messages, one after the other, on a fresh session. */
  lemma RubySteps(srv: ServerState, counter: nat, me: nat, login: string, env1: Env, env2: Env, env3: Env,
                  o1: Outcome, o2: Outcome, o3: Outcome)
    requires Fresh(srv, me) && IsArgument(login)
    requires o1 == HandleMessage(srv, counter, me, Message(None, None, "LOGIN", [login], None), env1)
    requires o2 == HandleMessage(o1.server, o1.counter, me, Message(None, None, "TITLE", [], Some(RUBY_TITLE)), env2)
    requires o3 == HandleMessage(o2.server, o2.counter, me, Message(None, None, "SEND", [], None), env3)
    ensures !o1.closed && !o2.closed && !o3.closed
    ensures var replies := o1.replies + (o2.replies + o3.replies);
      && |replies| == 2 && replies[0] == Welcome(login)
      && |replies[1]| >= 5 && replies[1][..5] == "+SEND"
    ensures o1.frames + (o2.frames + o3.frames)
         == [Frames.Frame(login, SendId(srv.db, counter, RubyNotification(login), env3).0, RubyNotification(login))]
  {
    UpperLoginKept();
    LoginStep(srv, counter, me, "LOGIN", login, env1);
    assert o1.server.clients[me].state == NewClientState().(name := Some(login));
    TitleStepRuby(o1.server, o1.counter, me, env2);
    SendStepRuby(o2.server, o2.counter, me, login, env3);
    assert o1.replies + (o2.replies + o3.replies) == [Welcome(login), o3.replies[0]];
  }

  // ---------------------------------------------------------------------------
  // Two SENDs on one connection
  // ---------------------------------------------------------------------------

  /** One SEND by a logged-in session on an open channel: nothing changes but the
      store, the counter and the queues, and the frame carries the id `SendId` gives. */
  lemma SendStep(srv: ServerState, counter: nat, me: nat, env: Env)
    requires me < |srv.clients| && srv.clients[me].open && srv.clients[me].state.name.Some?
    ensures var st := srv.clients[me].state;
      var d := st.details.(user := st.name);
      var sent := SendId(srv.db, counter, d, env);
      var o := HandleMessage(srv, counter, me, Read("SEND"), env);
      && !o.closed && o.server.db == sent.1 && o.counter == sent.2
      && o.frames == [Frames.Frame(st.name.value, sent.0, d)]
      && |o.server.clients| == |srv.clients|
      && o.server.clients[me].open && o.server.clients[me].state == st
  {
    var msg := Message(None, None, "SEND", [], None);
    SendLineRead();
    UpperKeeps("SEND");
    var e := Respond(srv, counter, me, msg, env);
    SendRules(srv, counter, me, msg, env);
    HandleMessageEffects(srv, counter, me, msg, env);
    DeliverEffects(srv.clients, me, e.state, e.frame, e.replies);
  }

  /** Within one connection, with a database, a SEND whose save succeeds followed by a
      SEND whose save fails sends two frames under one id: the new row id. */
  lemma FeedReusesId(srv: ServerState, counter: nat, me: nat, envs: seq<Env>)
    requires me < |srv.clients| && srv.clients[me].open && srv.clients[me].state.name.Some?
    requires srv.db.Some? && |envs| == 2 && envs[0].saveOk && !envs[1].saveOk
    ensures var st := srv.clients[me].state;
      var d := st.details.(user := st.name);
      var id := srv.db.value.lastRowid + 1;
      var o := Feed(srv, counter, me, ["SEND", "SEND"], envs);
      && !o.closed && o.counter == id + 1
      && o.frames == [Frames.Frame(st.name.value, id, d), Frames.Frame(st.name.value, id, d)]
  {
    var st := srv.clients[me].state;
    var d := st.details.(user := st.name);
    var o1 := HandleMessage(srv, counter, me, Read("SEND"), envs[0]);
    SendStep(srv, counter, me, envs[0]);
    SendIdRules(srv.db, counter, d, envs[0]);
    var o2 := HandleMessage(o1.server, o1.counter, me, Read("SEND"), envs[1]);
    SendStep(o1.server, o1.counter, me, envs[1]);
    SendIdRules(o1.server.db, o1.counter, d, envs[1]);
    FeedTwo(srv, counter, me, ["SEND", "SEND"], envs, o1, o2);
  }
}
