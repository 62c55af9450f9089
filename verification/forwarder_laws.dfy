/** What the client loops promise: the reassembly rules line by line, a single
    readiness report, and how they read the frames the server actually sends. */
module ForwarderLaws {

  import opened Basics
  import opened Text
  import opened Parser
  import opened ParserCases
  import opened Notifications
  import opened Frames
  import opened Forwarder

  // ---------------------------------------------------------------------------
  // Reassembly, command by command
  // ---------------------------------------------------------------------------

  /** NOTIFY_START discards whatever was being reassembled and starts fresh details:
      the user is the first argument, the id the second read as a number; a second
      argument that is not a `usize` panics. */
  lemma NotifyStartRules(details: Option<NotificationDetails>, msg: Message)
    ensures var r := FrameStep(details, "NOTIFY_START", msg);
      var args := msg.arguments;
      && (|args| > 1 && ParseUsize(args[1]).None? ==> r == Err(BadId(args[1])))
      && (r.Ok? ==>
            && r.value.1 == []
            && r.value.0.Some?
            && r.value.0.value.(user := None, id := None) == Notifications.New()
            && r.value.0.value.user == (if |args| > 0 then Some(args[0]) else None)
            && r.value.0.value.id == (if |args| > 1 then ParseUsize(args[1]) else None))
      && r == FrameStep(None, "NOTIFY_START", msg)
  {
  }

  /** TITLE replaces the title with the trailing, absent or not, inside a frame and does
      nothing outside one. */
  lemma TitleRules(details: Option<NotificationDetails>, msg: Message)
    ensures var r := FrameStep(details, "TITLE", msg);
      && r.Ok? && r.value.1 == []
      && (details.None? ==> r.value.0.None?)
      && (details.Some? ==> r.value.0 == Some(details.value.(title := msg.trailing)))
  {
  }

  /** BODY, inside a frame, appends the trailing and a line feed to a started body and
      panics when there is no trailing; with no body yet it starts one from the
      trailing, or stays without one.  Outside a frame it does nothing. */
  lemma BodyRules(details: Option<NotificationDetails>, msg: Message)
    ensures var r := FrameStep(details, "BODY", msg);
      && (details.None? ==> r == Ok((None, [])))
      && (details.Some? && details.value.body.Some? && msg.trailing.None? ==> r == Err(MissingTrailing))
      && (details.Some? && details.value.body.Some? && msg.trailing.Some? ==>
            r == Ok((Some(details.value.(body := Some(details.value.body.value + msg.trailing.value + "\n"))), [])))
      && (details.Some? && details.value.body.None? && msg.trailing.Some? ==>
            r == Ok((Some(details.value.(body := Some(msg.trailing.value + "\n"))), [])))
      && (details.Some? && details.value.body.None? && msg.trailing.None? ==> r == Ok((details, [])))
  {
  }

  /** NOTIFY_END shows the reassembled notification exactly when there is one, and
      always leaves no notification in progress. */
  lemma EndRules(details: Option<NotificationDetails>, msg: Message)
    ensures var r := FrameStep(details, "NOTIFY_END", msg);
      && r.Ok? && r.value.0.None?
      && (details.Some? <==> |r.value.1| == 1)
      && (details.Some? ==> r.value.1 == [DisplayOf(details.value)])
      && (details.None? ==> r.value.1 == [])
  {
  }

  /** The frame commands. */
  predicate IsFrameCommand(cmd: string) {
    cmd in {"NOTIFY_START", "TITLE", "BODY", "NOTIFY_END"}
  }

  /** Any other command leaves the reassembly alone and shows nothing. */
  lemma OtherIgnored(details: Option<NotificationDetails>, cmd: string, msg: Message)
    requires !IsFrameCommand(cmd)
    ensures FrameStep(details, cmd, msg) == Ok((details, []))
  {
  }

  /** The current client matches commands in any case: a message other than LOGIN is
      handled as its upper-cased command. */
  lemma StepMatchesUpperCase(r: Reader, msg: Message)
    requires Upper(msg.command) != "LOGIN"
    ensures Step(r, msg).Ok? <==> FrameStep(r.details, Upper(msg.command), msg).Ok?
    ensures Step(r, msg).Ok? ==>
      var s := FrameStep(r.details, Upper(msg.command), msg).value;
      Step(r, msg).value == (r.(details := s.0), s.1)
  {
  }

  // ---------------------------------------------------------------------------
  // Readiness is reported once
  // ---------------------------------------------------------------------------

  function ReadyCount(events: seq<Event>): nat
    decreases |events|
  {
    if |events| == 0 then 0 else (if events[0].Ready? then 1 else 0) + ReadyCount(events[1..])
  }

  lemma {:induction false} ReadyCountAppend(a: seq<Event>, b: seq<Event>)
    ensures ReadyCount(a + b) == ReadyCount(a) + ReadyCount(b)
    decreases |a|
  {
    if |a| == 0 {
      assert a + b == b;
    } else {
      ReadyCountAppend(a[1..], b);
      assert (a + b)[1..] == a[1..] + b;
    }
  }

  /** One line reports readiness only when it confirms the login, which happens once:
      the flag is never cleared, and it is set only by a `+` LOGIN reply. */
  lemma StepConfirms(r: Reader, msg: Message)
    requires Step(r, msg).Ok?
    ensures var s := Step(r, msg).value;
      && (r.confirmed ==> s.0.confirmed && ReadyCount(s.1) == 0)
      && ReadyCount(s.1) <= (if r.booted then 1 else 0)
      && (ReadyCount(s.1) > 0 ==> !r.confirmed && s.0.confirmed)
      && (!r.confirmed && s.0.confirmed ==>
            Upper(msg.command) == "LOGIN" && msg.sign == Some(true))
  {
    var cmd := Upper(msg.command);
    if cmd != "LOGIN" {
      var f := FrameStep(r.details, cmd, msg);
      assert Step(r, msg).value == (r.(details := f.value.0), f.value.1);
      NoReady(f.value.1);
    } else if msg.sign == Some(true) && !r.confirmed {
      assert r.booted ==> ReadyCount([Ready]) == 1;
    }
  }

  lemma {:induction false} NoReady(events: seq<Event>)
    requires forall i :: 0 <= i < |events| ==> events[i].Display?
    ensures ReadyCount(events) == 0
    decreases |events|
  {
    if |events| > 0 {
      NoReady(events[1..]);
    }
  }

  /** Over a whole run readiness is reported at most once, never after the login was
      confirmed, and never when the system was not booted by the service manager. */
  lemma {:induction false} ReadyAtMostOnce(r: Reader, msgs: seq<Message>)
    ensures ReadyCount(Loop(r, msgs).events) <= (if r.confirmed || !r.booted then 0 else 1)
    decreases |msgs|
  {
    if |msgs| > 0 {
      var step := Step(r, msgs[0]);
      if step.Ok? {
        var s := step.value;
        StepConfirms(r, msgs[0]);
        assert s.0.booted == r.booted;
        ReadyAtMostOnce(s.0, msgs[1..]);
        ReadyCountAppend(s.1, Loop(s.0, msgs[1..]).events);
      }
    }
  }

  // ---------------------------------------------------------------------------
  // The frames the server sends
  // ---------------------------------------------------------------------------

  /** Messages with an empty command change neither client's state and show nothing. */
  lemma {:induction false} EmptyCommandsIgnored(r: Reader, details: Option<NotificationDetails>,
                                               msgs: seq<Message>)
    requires forall i :: 0 <= i < |msgs| ==> msgs[i].command == ""
    ensures Loop(r, msgs) == Run(r, [], None)
    ensures LegacyLoop(details, msgs) == Run(details, [], None)
    decreases |msgs|
  {
    if |msgs| > 0 {
      assert Upper(msgs[0].command) == "";
      EmptyCommandsIgnored(r, details, msgs[1..]);
    }
  }

  /** Lines that all start with `$` are read with an empty command, so both clients
      pass over them. */
  lemma DollarLinesIgnored(r: Reader, details: Option<NotificationDetails>, lines: seq<string>)
    requires forall i :: 0 <= i < |lines| ==> |lines[i]| > 0 && lines[i][0] == '$'
    ensures Client(r, lines) == Run(r, [], None)
    ensures LegacyClient(details, lines) == Run(details, [], None)
  {
    var msgs := Reads(lines);
    forall i | 0 <= i < |msgs| ensures msgs[i].command == "" {
      DollarLine(lines[i]);
    }
    EmptyCommandsIgnored(r, details, msgs);
  }

  /** Read with the line parser, a notification frame is lost on both clients: every
      frame line starts with `$`, which the parser does not take as part of a command,
      so neither loop ever sees NOTIFY_START, TITLE, BODY or NOTIFY_END, and nothing
      is shown. */
  lemma FramesIgnored(r: Reader, details: Option<NotificationDetails>,
                      user: string, id: nat, d: NotificationDetails)
    requires '\n' !in user
    requires d.title.Some? ==> '\n' !in d.title.value
    requires forall i :: 0 <= i < |d.tags| ==> '\n' !in d.tags[i]
    ensures Client(r, Lines(Frame(user, id, d))) == Run(r, [], None)
    ensures LegacyClient(details, Lines(Frame(user, id, d))) == Run(details, [], None)
  {
    FrameLinesReadBack(user, id, d);
    FrameLinesStartWithDollar(user, id, d);
    DollarLinesIgnored(r, details, FrameLines(user, id, d));
  }

  // ---------------------------------------------------------------------------
  // Loops over batches
  // ---------------------------------------------------------------------------

  /** Running over two batches of messages is running over the first, then, unless it
      panicked, over the second from where the first left off. */
  lemma {:induction false} DriveAppend<S>(step: (S, Message) -> Result<(S, seq<Event>), Panic>, s: S,
                                          a: seq<Message>, b: seq<Message>)
    requires Drive(step, s, a).panic.None?
    ensures var first := Drive(step, s, a);
      var second := Drive(step, first.state, b);
      Drive(step, s, a + b) == Run(second.state, first.events + second.events, second.panic)
    decreases |a|
  {
    if |a| == 0 {
      assert a + b == b;
    } else {
      var ab := a + b;
      assert ab[0] == a[0];
      assert ab[1..] == a[1..] + b;
      var next := step(s, a[0]).value;
      DriveAppend(step, next.0, a[1..], b);
      var rest := Drive(step, next.0, a[1..]);
      var second := Drive(step, rest.state, b);
      assert next.1 + (rest.events + second.events) == (next.1 + rest.events) + second.events;
    }
  }
}
