/** The reassembly loop is the inverse of the frame the server builds, up to the `$`
    that starts every frame line: a client that is handed the frame's lines without
    their `$` shows exactly the notification that was sent. */
module FrameReassembly {

  import opened Basics
  import opened Text
  import opened Parser
  import opened ParserCases
  import opened CodecLaws
  import opened Notifications
  import opened Frames
  import opened Forwarder
  import opened ForwarderLaws

  /** The frame lines without their leading `$`. */
  function BareLines(user: string, id: nat, d: NotificationDetails): (ls: seq<string>) {
    [StartText(user, id)]
      + (if d.title.Some? then [TitleText(d.title.value)] else [])
      + (if |d.tags| > 0 then [TagsText(d.tags)] else [])
      + (if d.body.Some? then BareBody(Lines(d.body.value)) else [])
      + [EndText(id)]
  }

  function BareBody(ls: seq<string>): (r: seq<string>)
    ensures |r| == |ls|
    ensures forall i :: 0 <= i < |ls| ==> r[i] == BodyText(ls[i])
  {
    seq(|ls|, i requires 0 <= i < |ls| => BodyText(ls[i]))
  }

  function Dollar(line: string): string {
    "$" + line
  }

  /** Mapping over five pieces one after the other. */
  lemma MapFive<A, B>(f: A -> B, a: seq<A>, t: seq<A>, g: seq<A>, b: seq<A>, e: seq<A>)
    ensures Map(f, a + t + g + b + e) == Map(f, a) + Map(f, t) + Map(f, g) + Map(f, b) + Map(f, e)
  {
    MapAppend(f, a + t + g + b, e);
    MapAppend(f, a + t + g, b);
    MapAppend(f, a + t, g);
    MapAppend(f, a, t);
  }

  lemma AssociateFive<T>(a: seq<T>, t: seq<T>, g: seq<T>, b: seq<T>, e: seq<T>)
    ensures a + t + g + b + e == a + (t + (g + (b + e)))
  {
  }

  lemma MapOne<A, B>(f: A -> B, x: A)
    ensures Map(f, [x]) == [f(x)]
  {
  }

  /** An optional frame line is `$` followed by the optional bare line. */
  lemma MapDollarOptional(present: bool, line: string)
    ensures Map(Dollar, if present then [line] else []) == if present then ["$" + line] else []
  {
    if present {
      MapOne(Dollar, line);
    }
  }

  lemma MapDollarBody(ls: seq<string>)
    ensures Map(Dollar, BareBody(ls)) == BodyLines(ls)
  {
  }

  /** Each frame line is `$` followed by the bare line. */
  lemma FrameIsDollarBare(user: string, id: nat, d: NotificationDetails)
    ensures FrameLines(user, id, d) == Map(Dollar, BareLines(user, id, d))
  {
    var a := [StartText(user, id)];
    var t := if d.title.Some? then [TitleText(d.title.value)] else [];
    var g := if |d.tags| > 0 then [TagsText(d.tags)] else [];
    var ls := if d.body.Some? then Lines(d.body.value) else [];
    var b := BareBody(ls);
    var e := [EndText(id)];
    assert BareLines(user, id, d) == a + t + g + b + e;
    MapFive(Dollar, a, t, g, b, e);
    MapOne(Dollar, StartText(user, id));
    MapOne(Dollar, EndText(id));
    MapDollarOptional(d.title.Some?, TitleText(d.title.GetOr("")));
    MapDollarOptional(|d.tags| > 0, TagsText(d.tags));
    MapDollarBody(ls);
    assert d.body.None? ==> BodyLines(ls) == [];
  }

  /** The body a client reassembles: the body's lines, each ended by a line feed; none
      when there was no body. */
  function ReassembledBody(body: Option<string>): string {
    if body.Some? then Terminate(Lines(body.value), "\n") else ""
  }

  // ---------------------------------------------------------------------------
  // Reading single lines
  // ---------------------------------------------------------------------------

  /** Upper-casing text without lower-case letters changes nothing. */
  lemma UpperKeeps(s: string)
    requires forall i :: 0 <= i < |s| ==> !('a' <= s[i] <= 'z')
    ensures Upper(s) == s
  {
  }

  /** A line that starts with a command, not with a digit: no id, no sign, that
      command, and the arguments and trailing of the rest. */
  lemma BareCommandLine(command: string, tail: string)
    requires |command| > 0 && IsCommand(command) && !IsDigit(command[0])
    requires |tail| == 0 || !IsCommandChar(tail[0])
    ensures Read(command + tail) == Message(None, None, command, Tail(tail).0, Tail(tail).1)
  {
    var s := command + tail;
    assert s[0] == command[0];
    assert Id(s) == (None, s);
    UnsignedHead(command, tail);
  }

  /** `<command>: <t>` reads as that command with trailing `t`, when `t` does not start
      with a blank. */
  lemma ColonTail(t: string)
    requires IsTrailing(t)
    ensures Tail(": " + t) == ([], Some(t), [])
  {
    var tail := ": " + t;
    NoArguments(tail);
    assert tail[0] == ':';
    assert Span(tail, IsBlank) == 0;
    var rest := tail[1..];
    assert rest == " " + t;
    assert AllChars(" ", IsBlank);
    SpanOfPrefix(" ", t, IsBlank);
    assert rest[1..] == t;
  }

  lemma ColonLine(command: string, t: string)
    requires |command| > 0 && IsCommand(command) && !IsDigit(command[0])
    requires IsTrailing(t)
    ensures Read(command + (": " + t)) == Message(None, None, command, [], Some(t))
  {
    BareCommandLine(command, ": " + t);
    ColonTail(t);
  }

  /** The arguments ` <a> <b>`, and nothing after them. */
  lemma TwoArguments(a: string, b: string)
    requires IsArgument(a) && IsArgument(b)
    ensures Tail(" " + a + " " + b) == ([a, b], None, [])
  {
    var s := " " + a + " " + b;
    assert s == " " + (a + (" " + b));
    ArgumentStep(s, a, " " + b);
    assert " " + b == " " + (b + "");
    ArgumentStep(" " + b, b, "");
    assert Arguments("") == ([], "");
    assert [a] + ([b] + []) == [a, b];
    assert Trailing("") == (None, "");
  }

  lemma StartLineRead(user: string, id: nat)
    requires IsArgument(user)
    ensures Read(StartText(user, id)) == Message(None, None, "NOTIFY_START", [user, NatToString(id)], None)
  {
    var digits := NatToString(id);
    var tail := " " + user + " " + digits;
    assert StartText(user, id) == "NOTIFY_START" + tail;
    BareCommandLine("NOTIFY_START", tail);
    TwoArguments(user, digits);
  }

  lemma EndLineCommand(id: nat)
    ensures Read(EndText(id)).command == "NOTIFY_END"
  {
    BareCommandLine("NOTIFY_END", " " + NatToString(id));
    assert EndText(id) == "NOTIFY_END" + (" " + NatToString(id));
  }

  lemma TitleLineRead(t: string)
    requires IsTrailing(t)
    ensures Read(TitleText(t)) == Message(None, None, "TITLE", [], Some(t))
  {
    ColonLine("TITLE", t);
    assert TitleText(t) == "TITLE" + (": " + t);
  }

  lemma BodyLineRead(l: string)
    requires IsTrailing(l)
    ensures Read(BodyText(l)) == BodyMessage(l)
  {
    ColonLine("BODY", l);
    assert BodyText(l) == "BODY" + (": " + l);
  }

  lemma TagsLineCommand(tags: seq<string>)
    ensures Read(TagsText(tags)).command == "TAGS"
  {
    var tail := ": " + Join(tags, " ");
    assert TagsText(tags) == "TAGS" + tail;
    BareCommandLine("TAGS", tail);
  }

  function BodyMessage(l: string): Message {
    Message(None, None, "BODY", [], Some(l))
  }

  function BodyMessages(ls: seq<string>): (r: seq<Message>)
    ensures |r| == |ls|
  {
    seq(|ls|, i requires 0 <= i < |ls| => BodyMessage(ls[i]))
  }

  lemma ReadBody(ls: seq<string>)
    requires forall i :: 0 <= i < |ls| ==> IsTrailing(ls[i])
    ensures Reads(BareBody(ls)) == BodyMessages(ls)
  {
    var lines := BareBody(ls);
    forall i | 0 <= i < |ls| ensures Reads(lines)[i] == BodyMessages(ls)[i] {
      BodyLineRead(ls[i]);
    }
  }

  // ---------------------------------------------------------------------------
  // One message at a time
  // ---------------------------------------------------------------------------

  lemma ClassifyFrameCommands()
    ensures Classify("NOTIFY_START") == NotifyStart && Classify("TITLE") == TitleLine
    ensures Classify("BODY") == BodyLine && Classify("NOTIFY_END") == NotifyEnd
    ensures Classify("TAGS") == Ignored
  {
  }

  function StartMessage(user: string, id: nat): Message {
    Message(None, None, "NOTIFY_START", [user, NatToString(id)], None)
  }

  /** The start message discards whatever was there and starts fresh details. */
  lemma StartStep(details: Option<NotificationDetails>, user: string, id: nat)
    requires id < USIZE_LIMIT
    ensures LegacyStep(details, StartMessage(user, id)) == Ok((Some(Fresh(user, id)), []))
  {
    UpperKeeps("NOTIFY_START");
    ClassifyFrameCommands();
    ParseUsizeOfRendered(id);
  }

  /** The details NOTIFY_START gives. */
  function Fresh(user: string, id: nat): NotificationDetails {
    Notifications.New().(user := Some(user), id := Some(id))
  }

  lemma TitleStep(d: NotificationDetails, t: string)
    ensures LegacyStep(Some(d), Message(None, None, "TITLE", [], Some(t))) == Ok((Some(d.(title := Some(t))), []))
  {
    UpperKeeps("TITLE");
    ClassifyFrameCommands();
  }

  lemma TagsStep(details: Option<NotificationDetails>, msg: Message)
    requires msg.command == "TAGS"
    ensures LegacyStep(details, msg) == Ok((details, []))
  {
    UpperKeeps("TAGS");
    ClassifyFrameCommands();
  }

  lemma BodyStep(d: NotificationDetails, l: string)
    ensures LegacyStep(Some(d), BodyMessage(l))
         == Ok((Some(d.(body := Some(if d.body.Some? then d.body.value + l + "\n" else l + "\n"))), []))
  {
    UpperKeeps("BODY");
    ClassifyFrameCommands();
  }

  lemma EndStep(details: Option<NotificationDetails>, msg: Message)
    requires msg.command == "NOTIFY_END"
    ensures LegacyStep(details, msg) == Ok((None, if details.Some? then [DisplayOf(details.value)] else []))
  {
    UpperKeeps("NOTIFY_END");
    ClassifyFrameCommands();
  }

  // ---------------------------------------------------------------------------
  // Runs
  // ---------------------------------------------------------------------------

  /** A run over one message is that message's step. */
  lemma DriveOne<S>(step: (S, Message) -> Result<(S, seq<Event>), Panic>, s: S, m: Message)
    ensures Drive(step, s, [m]) == match step(s, m)
      case Ok(next) => Run(next.0, next.1, None)
      case Err(p) => Run(s, [], Some(p))
  {
    assert [m][1..] == [];
    if step(s, m).Ok? {
      var next := step(s, m).value;
      assert next.1 + [] == next.1;
    }
  }

  /** A step that succeeds silently just moves the loop on. */
  lemma DriveSilent<S>(step: (S, Message) -> Result<(S, seq<Event>), Panic>, s: S, msgs: seq<Message>)
    requires |msgs| > 0 && step(s, msgs[0]).Ok? && step(s, msgs[0]).value.1 == []
    ensures Drive(step, s, msgs) == Drive(step, step(s, msgs[0]).value.0, msgs[1..])
  {
    var rest := Drive(step, step(s, msgs[0]).value.0, msgs[1..]);
    assert [] + rest.events == rest.events;
  }

  /** Body lines after a started body extend it by each line and a line feed. */
  lemma {:induction false} BodyRun(d: NotificationDetails, ls: seq<string>)
    requires d.body.Some?
    ensures LegacyLoop(Some(d), BodyMessages(ls)) == Run(Some(d.(body := Some(d.body.value + Terminate(ls, "\n")))), [], None)
    decreases |ls|
  {
    var msgs := BodyMessages(ls);
    if |ls| == 0 {
      assert d.body.value + Terminate(ls, "\n") == d.body.value;
    } else {
      BodyMessagesTail(ls);
      BodyStep(d, ls[0]);
      var next := d.(body := Some(d.body.value + ls[0] + "\n"));
      assert LegacyStep(Some(d), msgs[0]) == Ok((Some(next), []));
      DriveSilent(LegacyStep, Some(d), msgs);
      BodyRun(next, ls[1..]);
      assert Terminate(ls, "\n") == ls[0] + "\n" + Terminate(ls[1..], "\n");
      assert next.body.value + Terminate(ls[1..], "\n") == d.body.value + Terminate(ls, "\n");
    }
  }

  /** Body lines from no body give the lines, each ended by a line feed; no lines leave
      the details as they were. */
  lemma BodyFromNone(d: NotificationDetails, ls: seq<string>)
    requires d.body.None?
    ensures LegacyLoop(Some(d), BodyMessages(ls))
         == Run(Some(if |ls| == 0 then d else d.(body := Some(Terminate(ls, "\n")))), [], None)
  {
    if |ls| > 0 {
      var msgs := BodyMessages(ls);
      BodyMessagesTail(ls);
      BodyStep(d, ls[0]);
      var next := d.(body := Some(ls[0] + "\n"));
      assert LegacyStep(Some(d), msgs[0]) == Ok((Some(next), []));
      DriveSilent(LegacyStep, Some(d), msgs);
      BodyRun(next, ls[1..]);
      assert Terminate(ls, "\n") == ls[0] + "\n" + Terminate(ls[1..], "\n");
    }
  }

  lemma BodyMessagesTail(ls: seq<string>)
    requires |ls| > 0
    ensures BodyMessages(ls)[0] == BodyMessage(ls[0])
    ensures BodyMessages(ls)[1..] == BodyMessages(ls[1..])
  {
  }

  /** A run whose first batch succeeds silently continues from where that batch left
      off. */
  lemma DriveSilentPrefix<S>(step: (S, Message) -> Result<(S, seq<Event>), Panic>, s: S, t: S,
                             a: seq<Message>, b: seq<Message>)
    requires Drive(step, s, a) == Run(t, [], None)
    ensures Drive(step, s, a + b) == Drive(step, t, b)
  {
    DriveAppend(step, s, a, b);
    assert [] + Drive(step, t, b).events == Drive(step, t, b).events;
  }

  // ---------------------------------------------------------------------------
  // The whole frame
  // ---------------------------------------------------------------------------

  /** The pieces of the bare frame, read. */
  lemma ReadsOfBare(user: string, id: nat, d: NotificationDetails)
    ensures var t := if d.title.Some? then [TitleText(d.title.value)] else [];
      var g := if |d.tags| > 0 then [TagsText(d.tags)] else [];
      var b := if d.body.Some? then BareBody(Lines(d.body.value)) else [];
      Reads(BareLines(user, id, d))
        == Reads([StartText(user, id)]) + (Reads(t) + (Reads(g) + (Reads(b) + Reads([EndText(id)]))))
  {
    var a := [StartText(user, id)];
    var t := if d.title.Some? then [TitleText(d.title.value)] else [];
    var g := if |d.tags| > 0 then [TagsText(d.tags)] else [];
    var b := if d.body.Some? then BareBody(Lines(d.body.value)) else [];
    var e := [EndText(id)];
    assert BareLines(user, id, d) == a + t + g + b + e;
    MapFive(Read, a, t, g, b, e);
    AssociateFive(Reads(a), Reads(t), Reads(g), Reads(b), Reads(e));
  }

  /** The start line, then the title line if any: fresh details with the title. */
  lemma StartAndTitle(details: Option<NotificationDetails>, user: string, id: nat, d: NotificationDetails,
                      rest: seq<Message>)
    requires IsArgument(user) && id < USIZE_LIMIT
    requires d.title.Some? ==> IsTrailing(d.title.value)
    ensures var t := if d.title.Some? then [TitleText(d.title.value)] else [];
      LegacyLoop(details, Reads([StartText(user, id)]) + (Reads(t) + rest))
        == LegacyLoop(Some(Fresh(user, id).(title := d.title)), rest)
  {
    var t := if d.title.Some? then [TitleText(d.title.value)] else [];
    var s1 := Fresh(user, id);
    StartLineRead(user, id);
    assert Reads([StartText(user, id)]) == [StartMessage(user, id)];
    StartStep(details, user, id);
    DriveOne(LegacyStep, details, StartMessage(user, id));
    DriveSilentPrefix(LegacyStep, details, Some(s1), [StartMessage(user, id)], Reads(t) + rest);
    if d.title.Some? {
      var m := Message(None, None, "TITLE", [], d.title);
      TitleLineRead(d.title.value);
      assert Reads(t) == [m];
      TitleStep(s1, d.title.value);
      DriveOne(LegacyStep, Some(s1), m);
      DriveSilentPrefix(LegacyStep, Some(s1), Some(s1.(title := d.title)), [m], rest);
    } else {
      assert Reads(t) + rest == rest;
      assert s1.(title := d.title) == s1;
    }
  }

  /** The tags line, if any, changes nothing. */
  lemma TagsIgnored(details: Option<NotificationDetails>, d: NotificationDetails, rest: seq<Message>)
    ensures var g := if |d.tags| > 0 then [TagsText(d.tags)] else [];
      LegacyLoop(details, Reads(g) + rest) == LegacyLoop(details, rest)
  {
    var g := if |d.tags| > 0 then [TagsText(d.tags)] else [];
    if |d.tags| > 0 {
      var m := Read(TagsText(d.tags));
      TagsLineCommand(d.tags);
      assert Reads(g) == [m];
      TagsStep(details, m);
      DriveOne(LegacyStep, details, m);
      DriveSilentPrefix(LegacyStep, details, details, [m], rest);
    } else {
      assert Reads(g) + rest == rest;
    }
  }

  /** The body lines, then the end line: one display of the details with the body. */
  lemma BodyAndEnd(s2: NotificationDetails, id: nat, d: NotificationDetails)
    requires s2.body.None?
    requires d.body.Some? ==> forall i :: 0 <= i < |Lines(d.body.value)| ==> IsTrailing(Lines(d.body.value)[i])
    ensures var b := if d.body.Some? then BareBody(Lines(d.body.value)) else [];
      LegacyLoop(Some(s2), Reads(b) + Reads([EndText(id)]))
        == Run(None, [DisplayOf(s2.(body := if ReassembledBody(d.body) == "" then None else Some(ReassembledBody(d.body))))], None)
  {
    var ls := if d.body.Some? then Lines(d.body.value) else [];
    var b := if d.body.Some? then BareBody(Lines(d.body.value)) else [];
    assert b == BareBody(ls);
    ReadBody(ls);
    BodyFromNone(s2, ls);
    var s3 := if |ls| == 0 then s2 else s2.(body := Some(Terminate(ls, "\n")));
    DriveSilentPrefix(LegacyStep, Some(s2), Some(s3), BodyMessages(ls), Reads([EndText(id)]));
    var m := Read(EndText(id));
    EndLineCommand(id);
    assert Reads([EndText(id)]) == [m];
    EndStep(Some(s3), m);
    DriveOne(LegacyStep, Some(s3), m);
    assert ReassembledBody(d.body) == Terminate(ls, "\n");
  }

  /** A client handed the frame's lines without their `$` shows the notification that
      was sent, once, and ends with nothing in progress, whatever it was doing before:
      the sender as user, the title or nothing, and the body's lines each ended by a
      line feed.  The user must be a single argument (as every login name is), the id a
      `usize`, and the title and body lines must not start with a blank, which the
      parser would strip.  The tags are not shown. */
  lemma ReassemblesFrame(details: Option<NotificationDetails>, user: string, id: nat, d: NotificationDetails)
    requires IsArgument(user) && id < USIZE_LIMIT
    requires d.title.Some? ==> IsTrailing(d.title.value)
    requires d.body.Some? ==> forall i :: 0 <= i < |Lines(d.body.value)| ==> IsTrailing(Lines(d.body.value)[i])
    ensures LegacyClient(details, BareLines(user, id, d))
         == Run(None, [Display(user, d.title.GetOr(""), ReassembledBody(d.body))], None)
  {
    var t := if d.title.Some? then [TitleText(d.title.value)] else [];
    var g := if |d.tags| > 0 then [TagsText(d.tags)] else [];
    var b := if d.body.Some? then BareBody(Lines(d.body.value)) else [];
    var rest := Reads(b) + Reads([EndText(id)]);
    ReadsOfBare(user, id, d);
    var s2 := Fresh(user, id).(title := d.title);
    StartAndTitle(details, user, id, d, Reads(g) + rest);
    TagsIgnored(Some(s2), d, rest);
    BodyAndEnd(s2, id, d);
  }
}
