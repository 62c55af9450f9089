/** The subscriber side: the read loops of the client daemons (`main` in
    src/bin/notificationd/client.rs and, older, in src/client.rs).  Each reads the
    server's lines, parses them unterminated, and reassembles a notification between
    NOTIFY_START and NOTIFY_END; showing it on the desktop becomes a `Display` event
    carrying the arguments `display` passes on. */
module Forwarder {

  import opened Basics
  import opened Text
  import opened Parser
  import opened Notifications

  /** What the loop does besides reading: show a notification (user, title, body as
      passed to the desktop), or report readiness to the service manager. */
  datatype Event = Display(user: string, title: string, body: string) | Ready

  /** Why the loop panics: a NOTIFY_START id that is not a number, or a BODY line
      without a trailing once a body has been started. */
  datatype Panic = BadId(text: string) | MissingTrailing

  /** `display`: a missing user shows as `notificationd`, a missing title or body as
      the empty text. */
  function DisplayOf(d: NotificationDetails): (e: Event)
    ensures e.Display?
    ensures d.user.Some? ==> e.user == d.user.value
    ensures d.user.None? ==> e.user == "notificationd"
    ensures e.title == (if d.title.Some? then d.title.value else "")
    ensures e.body == (if d.body.Some? then d.body.value else "")
  {
    Display(d.user.GetOr("notificationd"), d.title.GetOr(""), d.body.GetOr(""))
  }

  /** The first bytes a client writes: its login, then a subscription. */
  function Handshake(user: string, host: string): string {
    "login " + user + "@" + host + "\r\nconsume\r\n"
  }

  /** The NOTIFY_START record: fresh details with the first argument as user and the
      second, read as a `usize`, as id; a second argument that is not a number panics. */
  function Started(arguments: seq<string>): (r: Result<NotificationDetails, Panic>)
    ensures r.Err? <==> |arguments| > 1 && ParseUsize(arguments[1]).None?
  {
    var user := if |arguments| > 0 then Some(arguments[0]) else None;
    if |arguments| > 1 then
      match ParseUsize(arguments[1])
      case None => Err(BadId(arguments[1]))
      case Some(n) => Ok(Notifications.New().(user := user, id := Some(n)))
    else Ok(Notifications.New().(user := user))
  }

  /** The commands the reassembly looks at; every other command is `Ignored`. */
  datatype FrameCommand = NotifyStart | TitleLine | BodyLine | NotifyEnd | Ignored

  /** The frame command an upper-cased command names. */
  function Classify(cmd: string): FrameCommand {
    if cmd == "NOTIFY_START" then NotifyStart
    else if cmd == "TITLE" then TitleLine
    else if cmd == "BODY" then BodyLine
    else if cmd == "NOTIFY_END" then NotifyEnd
    else Ignored
  }

  /** One server message's effect on the notification being reassembled, for the four
      frame commands (already upper-cased); every other command leaves it alone. */
  function FrameStep(details: Option<NotificationDetails>, cmd: string, msg: Message)
    : (r: Result<(Option<NotificationDetails>, seq<Event>), Panic>)
    ensures r.Ok? ==> |r.value.1| <= 1 && forall i :: 0 <= i < |r.value.1| ==> r.value.1[i].Display?
  {
    match Classify(cmd)
    case NotifyStart =>
      (match Started(msg.arguments)
       case Ok(d) => Ok((Some(d), []))
       case Err(p) => Err(p))
    case TitleLine =>
      (match details
       case Some(d) => Ok((Some(d.(title := msg.trailing)), []))
       case None => Ok((None, [])))
    case BodyLine =>
      (match details
       case None => Ok((None, []))
       case Some(d) =>
         match d.body
         case Some(b) =>
           if msg.trailing.None? then Err(MissingTrailing)
           else Ok((Some(d.(body := Some(b + msg.trailing.value + "\n"))), []))
         case None =>
           Ok((Some(d.(body := if msg.trailing.Some? then Some(msg.trailing.value + "\n") else None)), [])))
    case NotifyEnd =>
      (match details
       case Some(d) => Ok((None, [DisplayOf(d)]))
       case None => Ok((None, [])))
    case Ignored => Ok((details, []))
  }

  /** The message a client reads from a line: unterminated parsing, which never fails. */
  function Read(line: string): Message {
    Line(line, false).value.1
  }

  /** The messages read from the lines the server sends, in order. */
  function Reads(lines: seq<string>): seq<Message> {
    Map(Read, lines)
  }

  /** Where a loop ends: its last state, every event in order, and the panic that
      stopped it, if any. */
  datatype Run<S> = Run(state: S, events: seq<Event>, panic: Option<Panic>)

  /** A read loop: `step` applied to each message in turn, collecting the events, until
      the first panic. */
  function Drive<S>(step: (S, Message) -> Result<(S, seq<Event>), Panic>, s: S, msgs: seq<Message>): Run<S>
    decreases |msgs|
  {
    if |msgs| == 0 then Run(s, [], None)
    else
      match step(s, msgs[0])
      case Err(p) => Run(s, [], Some(p))
      case Ok(next) =>
        var rest := Drive(step, next.0, msgs[1..]);
        Run(rest.state, next.1 + rest.events, rest.panic)
  }

  // ---------------------------------------------------------------------------
  // The current client (src/bin/notificationd/client.rs)
  // ---------------------------------------------------------------------------

  /** The loop's variables: the notification being reassembled and whether the login
      has been confirmed; and whether the service manager booted the system, which the
      loop asks when it confirms the login. */
  datatype Reader = Reader(details: Option<NotificationDetails>, confirmed: bool, booted: bool)

  /** One message: a `+` LOGIN reply confirms the login the first time, reporting
      readiness when the service manager booted the system; the frame commands
      reassemble; anything else is ignored.  Commands are matched upper-cased. */
  function Step(r: Reader, msg: Message): Result<(Reader, seq<Event>), Panic> {
    var cmd := Upper(msg.command);
    if cmd == "LOGIN" then
      if msg.sign == Some(true) && !r.confirmed then
        Ok((r.(confirmed := true), if r.booted then [Ready] else []))
      else Ok((r, []))
    else
      match FrameStep(r.details, cmd, msg)
      case Ok(s) => Ok((r.(details := s.0), s.1))
      case Err(p) => Err(p)
  }

  /** The loop over the messages read, stopping at a panic. */
  function Loop(r: Reader, msgs: seq<Message>): Run<Reader> {
    Drive(Step, r, msgs)
  }

  /** The client over the lines the server sends. */
  function Client(r: Reader, lines: seq<string>): Run<Reader> {
    Loop(r, Reads(lines))
  }

  // ---------------------------------------------------------------------------
  // The older client (src/client.rs)
  // ---------------------------------------------------------------------------

  /** One message: only the frame commands, matched upper-cased; LOGIN replies are not
      looked at. */
  function LegacyStep(details: Option<NotificationDetails>, msg: Message)
    : Result<(Option<NotificationDetails>, seq<Event>), Panic>
  {
    FrameStep(details, Upper(msg.command), msg)
  }

  function LegacyLoop(details: Option<NotificationDetails>, msgs: seq<Message>)
    : Run<Option<NotificationDetails>>
  {
    Drive(LegacyStep, details, msgs)
  }

  function LegacyClient(details: Option<NotificationDetails>, lines: seq<string>)
    : Run<Option<NotificationDetails>>
  {
    LegacyLoop(details, Reads(lines))
  }
}
